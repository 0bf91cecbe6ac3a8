# deeprun-backend, modelled and proved in Dafny

A Dafny 4.11 project that models the cores of the deeprun backend and proves what they promise. `dafny verify dfyconfig.toml`
checks all of it; the project needs nothing outside this directory.

**Source bundles.** A source tree is walked into a manifest (`SourceTreePaths`), written as a ustar archive and read back
(`OctalFields`, `TarHeader`, `NormalizedBundle`, `BundleRoundTrip`). Bytes, octal fields, checksum, path splitting, padding and the
in-place header buffer are modelled as they are. Layout as in "ustar Interchange Format" of the pax utility in IEEE Std 1003.1-2017.

**The governance protocol.** Workers claim jobs under numbered leases, go stale and keep writing; issuers race for one decision.
`GovernanceStore` has the store's methods on mutable tables, each proved equal to one function of `GovernanceTables`;
`GovernanceProtocol` lets any number of workers and issuers interleave those steps, `TableInvariants` and `GovernanceSafety` prove
what every step keeps, and `GovernanceTheorems` states the results for every event sequence; `DecisionUniqueness` says when a
decision can be stored at all and `LateIssuers` what becomes of a decided assessment, both with runs built in `AssessmentRuns`.
`CanonicalAdapter`, `DecisionRules` and `GovernanceVerdict` carry validator checks to the stored verdict. `ArtifactIngestion` is the
second lease protocol of the same store.

**The kernel.** `KernelLoop` says what one iteration must record and runs its checks, `KernelExecution` is the loop over a plan that
corrections are spliced into while it runs, `KernelRuns` proves that its contract determines it and what it does on concrete inputs;
`KernelDriver` has the retry loops around it and `DriverSoundness` what their results mean. Planner, tools and validators are
arbitrary.

**Canonical forms and graphs.** `CanonicalJson` and its reader and theorem, `GraphPeeling` and `GraphAcyclicity` (Kahn's
algorithm on a queue and maps), `GraphRevisions` and `GraphRevisionDiff`; `SortedText` has code-unit order and sorting.

**Lifecycle runs and configs.** `LifecycleRun`, `LifecycleTheorems`, `LifecycleWorker`, `ExecutionConfig`.

**What the definitions mean.** `PathRules`, `TarRules`, `LeaseRules`, `IssuerRules`, `IngestionRules`, `AdapterRules`, `KernelRules`,
`DriverRules`, `KeyOrder`, `RevisionRules`, `LifecycleRules` and `ConfigRules` say what the predicates and functions of the other
modules come to on plain rows, bytes, code units, numbers and recorded steps, in terms of their own: who takes a job and who may
write, when an issuer signs, which path is accepted, which way the convergence guard points, in which order keys are printed.

How the outside is modelled: a table is a map and one SQL statement or transaction is one atomic step; NOW() is one clock that never
goes back, while the clock of an API host is an arbitrary number; SHA-256 is injective, so a digest is a constructor applied to what
was hashed; random ids are drawn afresh; planner, tools, validators and the environment are parameters or arbitrary functions.

Where the code does less than its surroundings suggest, the code is followed and the difference is proved:

- A repeated runtime failure in `enforce` mode sets a rollback reason but does not stop the run while corrections are left
  (`WhenConvergenceStops`, with an input in `RunRepeatedFailure`); a correction that breaks the policy is passed over when another
  correction is queued on the same step (`WhenPolicyStops`, with an input in `RunPolicyViolation`).
- In `enforce` mode the blocking count falls from each heavy validation that fails to the next one that is corrected, but not always
  from one heavy correction to the next: a failure in between may have been answered by a runtime correction
  (`CorrectedExactlyWhenFewerBlock`, `BlockingFalls`, with an input in `RunRisingCount`).
- The driver sets a run to `complete` after a correction that failed on an invariant. For a configuration that does not guard
  invariants every complete run is sound, for every other there is a builder run that is complete and not (`ForcedRun`; exactly
  when in `CompleteIsSoundUnlessForced` and `UnsoundCompleteExactlyWhen`).
- A decision hash is unique over all assessments, and a decision does not name its assessment: the second of two assessments that
  come to the same decision is never issued one, its issuer fails and it stays deciding (`StoredExactlyWhenNew`,
  `SameDecisionExactlyWhen`, `ReassessmentStaysDeciding`).
- No write of an assessment's status looks at its decision: an issuer that made its first read before the decision, or a worker
  that reports an error late, can put a decided assessment in error (`DecidedAssessmentEndsInError`; who can in
  `TurnsErrorExactlyWhen`, `LateIssuersReturn` and `StaleRowNeverSigns`).
- An artifact insert overwrites a row of the same id, which changes what an earlier key replays (`ReplaysKeptExactlyWhen`, with an
  input in `ReusedIdIsReplayedWrongly`); the server draws every id afresh.
- The acyclicity check refuses an edge given twice and can accept a cyclic graph when an endpoint is unknown
  (`RefuseRepeatedEdge`, `AcceptUnknownEndpoint`); the store's second check refuses unknown endpoints
  (`CreateExecutionGraph`).
- A revision diff does not see how often a hash occurs, the identity hash does (`IdentityChangesWithTheLists`,
  `NodeDiffPatchesExactlyWhen`, `EdgeDiffPatchesExactlyWhen`, with inputs in `RepeatedHashIsNotSeen` and `RepeatedEdgeIsListedOnce`).
- The phase switch of a lifecycle run is not checked against its graph and is no edge from `correcting`
  (`SwitchIsAnEdgeFromRunning`, `CorrectingRunLeavesTheGraph`).
- `schemaVersion` is clamped before it is compared, so every finite version is accepted
  (`EveryFiniteVersionIsAccepted`, `VersionSevenIsAccepted`).
- Naming the profile a run already has resets the fields the request leaves out (`NamingTheProfileResetsTheRest`).

## Model

| member | source | states |
|---|---|---|
| SourceTreePaths.NormalizeIsIdempotent | packages/deeprun-backend/src/governance/artifacts.ts:72-106 | A path that is accepted comes out with forward slashes, satisfies every path rule, and normalizes to itself. |
| SourceTreePaths.Walk | packages/deeprun-backend/src/governance/artifacts.ts:124-176 | The walk with its running totals succeeds exactly when every path is safe, every file is within its size limit and the totals are within theirs, and then lists every file under its normalized path. |
| SourceTreePaths.AssertNoDuplicateOrCaseCollidingPaths | packages/deeprun-backend/src/governance/artifacts.ts:178-195 | Passes exactly when all lower-cased paths differ; each of the two errors has a witness of its own kind. |
| SourceTreePaths.BuildSourceTreeManifest | packages/deeprun-backend/src/governance/artifacts.ts:201-242 | Succeeds exactly on acceptable trees; the result is the sort of the walked files and has normalized, pairwise distinct paths and bounded files. |
| SourceTreePaths.ManifestForgetsListing | packages/deeprun-backend/src/governance/artifacts.ts:132-133 | Directory entries listed in another order give the same manifest, when no two paths compare as equal. |
| PathRules.AcceptedExactlyWhen | packages/deeprun-backend/src/governance/artifacts.ts:72-106 | A path is accepted if and only if, on its bytes, it is not empty and not too long, has no NUL and no colon, no slash of either kind at an end or next to another, no space or dot before a slash or the end, and no device name between slashes, alone or with an extension; then its backslashes are turned and nothing else changes. |
| PathRules.DotFilesAreAccepted | packages/deeprun-backend/src/governance/artifacts.ts:90-103 | A dot followed by any name without forbidden bytes is accepted as it is, up to the length limit. |
| PathRules.DotFilesBelowAreAccepted | packages/deeprun-backend/src/governance/artifacts.ts:90-103 | And so is such a dot file below every directory that is accepted. |
| PathRules.ParentsAndDevicesAreRefused | packages/deeprun-backend/src/governance/artifacts.ts:91-101 | The parent directory and a device name in any letter case are refused wherever they stand in a path. |
| PathRules.TreeIsAcceptedExactlyWhen | packages/deeprun-backend/src/governance/artifacts.ts:124-242 | A walked tree is accepted if and only if every path is good on its bytes, no two differ only in letter case or in the kind of slash, and number, sizes and total are within the limits. |
| TarHeader.SplitTarPath | packages/deeprun-backend/src/governance/normalized-bundle.ts:26-42 | The loop over segments finds exactly the first slash that leaves a prefix of at most 155 and a name of at most 100 bytes; short paths are not split. |
| TarHeader.SplitRejoins | packages/deeprun-backend/src/governance/normalized-bundle.ts:26-42 | A path splits if and only if it is short or has such a slash, and prefix, slash and name give the path back. |
| TarHeader.WriteOctal | packages/deeprun-backend/src/governance/normalized-bundle.ts:20-24 | Writes the octal field at its offset in place and leaves every other byte of the buffer alone. |
| TarHeader.TarHeader | packages/deeprun-backend/src/governance/normalized-bundle.ts:44-76 | The block written field by field in place, checksum last, equals the header defined as a concatenation of its fields; no result exactly when the path does not split. |
| TarHeader.HeaderLayout | packages/deeprun-backend/src/governance/normalized-bundle.ts:49-75 | Every field of a written header sits in its own byte range of the 512-byte ustar block and the ranges cover it. |
| TarHeader.ChecksumIsTheSum | packages/deeprun-backend/src/governance/normalized-bundle.ts:67-73 | The stored checksum reads as the sum of all header bytes with the checksum field as spaces; six octal digits never cut it. |
| OctalFields.OctalFieldRoundTrip | packages/deeprun-backend/src/governance/normalized-bundle.ts:20-24 | Reading an octal field gives the written number back if and only if the number fits; otherwise it reads as a smaller number. |
| OctalFields.ParseOctalText | packages/deeprun-backend/src/governance/normalized-bundle.ts:83-86 | Octal digits ended by a NUL and anything without a line break read as their value, through ASCII decoding, NUL cutting, trimming and parseInt. |
| NormalizedBundle.CreateNormalizedSourceTreeBundle | packages/deeprun-backend/src/governance/normalized-bundle.ts:98-129 | Writes exactly the members in manifest order, padded, and two zero blocks; fails exactly on trees that are not acceptable or have a path that does not split. |
| NormalizedBundle.MaterializeNormalizedSourceTreeBundle | packages/deeprun-backend/src/governance/normalized-bundle.ts:131-174 | The loop with its offset and seen set leaves on disk exactly the entries the recursive reader finds before the error, and stops with that error, for every byte string. |
| NormalizedBundle.ReadEntry | packages/deeprun-backend/src/governance/normalized-bundle.ts:142-171 | An entry read is a slice of the archive directly after its header. |
| NormalizedBundle.ScanIsSafe | packages/deeprun-backend/src/governance/normalized-bundle.ts:142-173 | On arbitrary bytes the entries unpacked have normalized, pairwise distinct paths and contents that are disjoint slices of the archive, in order. |
| BundleRoundTrip.MemberReadsBack | packages/deeprun-backend/src/governance/normalized-bundle.ts:142-171 | A member found at any offset of any archive reads as its file: path rejoined, executable bit, and the content up to the size the field holds. |
| BundleRoundTrip.RoundTrip | packages/deeprun-backend/src/governance/normalized-bundle.ts:98-174 | Reading a written bundle leaves exactly the source tree, with no error, if and only if every file is smaller than 8^11 bytes. |
| BundleRoundTrip.ManifestRoundTrip | packages/deeprun-backend/src/governance/normalized-bundle.ts:104-116 | Every manifest the writer accepts satisfies the round trip, and a file size limit below 8^11 makes it unconditional. |
| TarRules.HeaderByBytes | packages/deeprun-backend/src/governance/normalized-bundle.ts:44-76 | Every byte of a header by its place: the name, `0000755` or `0000644`, zero owner, group and time, the size in eleven octal digits, type `0`, `ustar`, `00`, `root` twice, the prefix, and zeros everywhere else. |
| TarRules.OctalDigitsStand | packages/deeprun-backend/src/governance/normalized-bundle.ts:20-24 | A number that fits stands in its field by its octal digits, the lowest last. |
| TarRules.CutExactlyWhen | packages/deeprun-backend/src/governance/normalized-bundle.ts:26-42 | A path of more than 100 bytes is cut at its first slash with at most 155 bytes before and at most 100 behind it, and cannot be stored exactly when there is none. |
| TarRules.EntryExactlyWhen | packages/deeprun-backend/src/governance/normalized-bundle.ts:142-171 | What the bytes at an offset are read as: the end, one of the four errors in the order of the checks, or an entry, with the path rule said on bytes. |
| TarRules.ExecuteBits | packages/deeprun-backend/src/governance/normalized-bundle.ts:160-170 | An entry is executable if and only if owner, group or others may execute it. |
| TarRules.NumberIsRead | packages/deeprun-backend/src/governance/normalized-bundle.ts:83-86 | An octal field is read without the high bits of its bytes: white space, a minus sign or none, octal digits, and whatever follows them. |
| TarRules.TextEndsExactlyWhere | packages/deeprun-backend/src/governance/normalized-bundle.ts:78-86 | A text field ends before its first NUL with no line break behind it, and is taken whole when there is none. |
| TarRules.BundleEnds | packages/deeprun-backend/src/governance/normalized-bundle.ts:118-128 | A bundle is as long as a header and the filled content of each file and two blocks more, and those last 1024 bytes are zero. |
| GovernanceStore.Store.ClaimNextGovernanceJob | packages/deeprun-backend/src/governance/governance-store.ts:1366-1404 | Claims the longest-due claimable job that is not locked, raising its generation and claim count; nothing is claimed exactly when every claimable job is locked. |
| LeaseRules.HolderIsNotRobbed | packages/deeprun-backend/src/governance/governance-store.ts:1366-1404 | Over every run: while a worker can still write under its lease, no poll by any worker changes anything about that job or anywhere else. |
| LeaseRules.HeldJobIsTakenExactlyWhenExpired | packages/deeprun-backend/src/governance/governance-store.ts:1380-1384 | Over every run: a claimed or running job has a lease, and a poll takes the job if and only if that lease has passed. |
| LeaseRules.RunningLeaseIsNotTaken | packages/deeprun-backend/src/governance/governance-store.ts:1380-1384 | A job whose lease still runs, one that is not due yet and one that has ended are passed over by every poll, which changes nothing. |
| LeaseRules.DueJobIsTaken | packages/deeprun-backend/src/governance/governance-store.ts:1380-1404 | A job that is due and one whose lease has passed go to the next poll: the row names the new worker, a lease of at least thirty seconds, one more generation and one more claim, and nothing else changes. |
| LeaseRules.BeatExactlyWhenOwned | packages/deeprun-backend/src/governance/governance-store.ts:1406-1426 | A heartbeat runs the lease on from now if and only if worker and generation are those of the row, it is held and its lease still runs. |
| LeaseRules.StartExactlyWhenOwned | packages/deeprun-backend/src/governance/governance-store.ts:1428-1445 | A job starts if and only if its owner has claimed and not yet started it; otherwise the process ends and nothing changes. |
| LeaseRules.FailExactlyWhenOwned | packages/deeprun-backend/src/governance/governance-store.ts:1462-1508 | Only the owner fails a job for good, or frees it until a given time without a worker and without a lease. |
| LeaseRules.CancelExactlyWhenOwned | packages/deeprun-backend/src/governance/governance-store.ts:1510-1523 | With a worker given, only the owner of a running lease cancels, in tables where exactly the held jobs have a lease, as in every reachable state. |
| LeaseRules.UnheldCancelExactlyWhen | packages/deeprun-backend/src/governance/governance-store.ts:1510-1523 | Without a worker a job is cancelled exactly while it has not ended, whoever holds it. |
| LeaseRules.ExpiredOwnerWritesNothing | packages/deeprun-backend/src/governance/governance-store.ts:1406-1523 | A worker whose lease has passed changes nothing by any statement under it, also while nobody else has taken the job. |
| LeaseRules.LinkExactlyWhen | packages/deeprun-backend/src/governance/governance-store.ts:1766-1802 | Evidence is linked after a look that found no manifest, keeping the selection of a row that is there, and each look serves one link. |
| LeaseRules.NewRowsAre | packages/deeprun-backend/src/governance/governance-store.ts:1038-1066 | New assessments and attempts are queued, a new job is free, due at its time and claimed zero times, and rows that exist are left alone. |
| GovernanceStore.Store.UpsertEvidenceCore | packages/deeprun-backend/src/governance/governance-store.ts:1549-1616 | Stores a core under its digest unless one is there, and returns the row that is stored. |
| GovernanceStore.Store.LinkEvidenceToAssessment | packages/deeprun-backend/src/governance/governance-store.ts:1766-1802 | Links evidence exactly when no manifest of the attempt exists, keeping whether the link is selected. |
| GovernanceStore.Store.CompleteAttemptAtomically | packages/deeprun-backend/src/governance/governance-store.ts:2143-2281 | Succeeds exactly when attempt and assessment run, enough evidence is linked and the lease is held; then all five tables change together, otherwise none does. |
| LeaseRules.FinalizeExactlyWhenOwned | packages/deeprun-backend/src/governance/governance-store.ts:2143-2281 | On the rows: a completion marks job and attempt complete, the assessment deciding and its links selected and stores the manifest of the sorted entries if and only if attempt and assessment run, enough evidence is linked and the process owns the job. |
| GovernanceStore.Store.PersistIssuedDecisionAtomically | packages/deeprun-backend/src/governance/governance-store.ts:2033-2128 | Stores and returns the first decision of an assessment that is deciding, unless another assessment has its hash; a stored one is returned if its hash agrees and is a conflict if not; every error leaves all tables as they were. |
| GovernanceSafety.TakeKeeps | packages/deeprun-backend/src/governance/governance-store.ts:1366-1404 | A claim by any worker keeps the whole invariant of tables, workers, issuers and decisions. |
| GovernanceSafety.WorkKeeps | packages/deeprun-backend/src/governance/governance-evaluator.ts:216-307 | Every step of every worker, stale or not, keeps the invariant and only extends what is final. |
| GovernanceSafety.FinalizeKeeps | packages/deeprun-backend/src/governance/governance-store.ts:2143-2281 | A completion keeps the invariant: its manifest names stored cores, is bound to its assessment and belongs to a completed job. |
| GovernanceSafety.IssueKeeps | packages/deeprun-backend/src/governance/decision-issuer.ts:47-210 | Every read or write of every issuer, with anything in between, keeps the invariant. |
| GovernanceSafety.SelectionSettles | packages/deeprun-backend/src/governance/governance-store.ts:1831-1857 | The attempt an issuer selects is the one every issuer of the assessment has selected before. |
| GovernanceSafety.SignaturesAgree | packages/deeprun-backend/src/governance/decision-issuer.ts:168-188 | An issuer that has signed never meets a decision of its assessment with another hash. |
| GovernanceSafety.VerifiedSnapshotsAgree | packages/deeprun-backend/src/governance/authority-loader.ts:77-210 | Two profile and policy snapshots verified against one authority have the same id, version and validators and the same policy, so it does not matter which was read. |
| GovernanceSafety.RunKeeps | packages/deeprun-backend/src/governance/governance-store.ts:1366-1523 | The invariant holds in every state of every event sequence, and terminal jobs, manifests and decisions only stay or are added. |
| GovernanceTheorems.GenerationCountsClaims | packages/deeprun-backend/src/governance/governance-store.ts:1366-1404 | Over any run a job's lease generation is exactly the number of times it was claimed. |
| GovernanceTheorems.StaleHolderIsLockedOut | packages/deeprun-backend/src/governance/governance-store.ts:1406-1523 | After generation g+1 has been claimed, no heartbeat, start, failure, cancellation or completion by generation g succeeds, ever. |
| GovernanceTheorems.OneHolder | packages/deeprun-backend/src/governance/governance-store.ts:1406-1426 | At any moment at most one worker process holds the lease of a job. |
| GovernanceTheorems.TerminalJobsNeverChange | packages/deeprun-backend/src/governance/governance-store.ts:1462-1523 | A job that is complete, failed or cancelled stays exactly as it is. |
| GovernanceTheorems.ManifestIsWrittenOnce | packages/deeprun-backend/src/governance/governance-store.ts:2143-2281 | A manifest never changes once written and belongs to a job that completed and stays complete. |
| GovernanceTheorems.JobCompletesOnce | packages/deeprun-backend/src/governance/governance-store.ts:2143-2281 | After a completion succeeds, no completion of that job by anyone can succeed again. |
| GovernanceTheorems.ManifestIsNeverRefused | packages/deeprun-backend/src/governance/decision-issuer.ts:85-101 | An issuer that reaches the manifest finds it bound to its assessment and naming only stored cores; the mismatch errors are unreachable there. |
| GovernanceTheorems.EvaluatedAtMostThrice | packages/deeprun-backend/src/governance/governance-worker.ts:141-167 | Whatever crashes, expiries, reclaims and reschedules happen, the evaluator is called at most three times for a job. |
| LeaseRules.ThreeCrashesAreThreeEvaluations | packages/deeprun-backend/src/governance/governance-worker.ts:141-167 | The bound is met: a concrete run from the empty tables in which a worker crashes three times evaluates the job three times. |
| LeaseRules.AllowedExactlyWhen | packages/deeprun-backend/src/governance/governance-worker.ts:120-275 | When a worker process may issue each statement, by where it stands and how often the job was claimed. |
| LeaseRules.StepExactlyWhen | packages/deeprun-backend/src/governance/governance-worker.ts:120-275 | A statement that is allowed, and whose foreign key, trust class and sort are in order, does what it does to the tables and moves its own process only; any other changes nothing. |
| GovernanceTheorems.DecisionIsFinal | packages/deeprun-backend/src/governance/governance-store.ts:2033-2128 | An issued decision never changes, is signed over its own core and names the manifest of a completed job. |
| GovernanceTheorems.RacingIssuersAgree | packages/deeprun-backend/src/governance/decision-issuer.ts:47-210 | Any two issuers of one assessment that get as far as signing have the same core, whatever statuses, links and snapshots were written between their reads. |
| GovernanceTheorems.SignedIsIssued | packages/deeprun-backend/src/governance/decision-issuer.ts:168-195 | A core signed at any moment equals the one stored at any later moment. |
| GovernanceTheorems.NoDecisionConflict | packages/deeprun-backend/src/governance/decision-issuer.ts:183-188 | The hash-conflict error is unreachable, and what an issuer returns is the stored decision. |
| IssuerRules.SignsExactlyWhen | packages/deeprun-backend/src/governance/decision-issuer.ts:47-182 | An issuer that runs alone signs if and only if no decision is stored, the selected evidence is of one attempt, that attempt is complete and the assessment deciding, the stored snapshots are those the authority and its input hash were made from, the manifest is unaltered and bound to it, and every required validator has accepted evidence in the last entry that names it; which core it signs is determined by these rows. |
| IssuerRules.RefusesExactlyWhen | packages/deeprun-backend/src/governance/decision-issuer.ts:47-101 | Which reads refuse and with which error, and that a refusal puts the assessment in error and throws. |
| IssuerRules.ComplaintExactlyWhen | packages/deeprun-backend/src/governance/decision-issuer.ts:85-101 | A manifest is accepted if and only if it is of this assessment and attempt, unaltered and about the same subject, profile and contract; each error names the first of these that fails. |
| IssuerRules.PersistExactlyWhen | packages/deeprun-backend/src/governance/governance-store.ts:2033-2128 | A decision is written if and only if the assessment is deciding, has none and no assessment has its hash; the row and the completed assessment are given, and every other outcome changes nothing. |
| IssuerRules.PersistsWhatItSigned | packages/deeprun-backend/src/governance/decision-issuer.ts:168-197 | What is persisted carries the issuer's name and the digest of its core, and the issuer ends with what the store answers. |
| IssuerRules.StoredExactlyWhen | packages/deeprun-backend/src/governance/governance-store.ts:925-1011 | Profile and policy snapshots are replaced under their key, contract snapshots and evidence cores are kept once stored. |
| DecisionUniqueness.StoredExactlyWhenNew | packages/deeprun-backend/src/governance/governance-store.ts:2065-2128 | Over every run: an issuer that comes to persist returns if and only if its assessment has a decision, or is deciding and no other assessment has been issued the same decision; otherwise it throws, no table changes and the assessment stays deciding. |
| DecisionUniqueness.SameDecisionExactlyWhen | packages/deeprun-backend/src/governance/decision-issuer.ts:152-182 | Two assessments get the same decision if and only if subject, profile, policy, contract and evidence manifest agree; the assessment itself is not part of it. |
| DecisionUniqueness.ReassessmentStaysDeciding | packages/deeprun-backend/src/governance/governance-store.ts:289-298 | A concrete run from the empty tables in which one subject is assessed twice with the same evidence: the first decision is stored, the issuer of the second assessment ends with an error and that assessment is left deciding. |
| LateIssuers.TurnsErrorExactlyWhen | packages/deeprun-backend/src/governance/governance-store.ts:1252-1271 | The status of any assessment, decided or not, turns to error exactly by the write of a refused issuer or of a worker, stale or not, that reports an error. |
| LateIssuers.LateIssuersReturn | packages/deeprun-backend/src/governance/decision-issuer.ts:47-51 | Over every run: an issuer that had read nothing when its assessment got a decision never gets further than returning it and never writes the error. |
| LateIssuers.StaleRowNeverSigns | packages/deeprun-backend/src/governance/decision-issuer.ts:65-76 | Over every run: an issuer that read an assessment row which was not deciding never signs and never returns, it is refused or throws. |
| LateIssuers.DecidedAssessmentEndsInError | packages/deeprun-backend/src/governance/decision-issuer.ts:199-207 | A concrete run from the empty tables in which one issuer makes its first read, another stores the decision, and the first goes on: the decision stays and its assessment is in error. |
| GovernanceVerdict.IssuerSignsTheChecks | packages/deeprun-backend/src/governance/decision-issuer.ts:103-166 | Over every run: an issuer that has read the evidence of a manifest made from the canonical checks has found every core, is not refused, and signs a pass if and only if each expected check was produced and its last occurrence passed. |
| GovernanceVerdict.StoredVerdictIsTheChecks | packages/deeprun-backend/src/governance/decision-issuer.ts:103-197 | Over every run: a stored decision over such a manifest is a pass if and only if every expected check passed, whichever issuer signed it and whatever ran beside it. |
| GovernanceVerdict.EntriesAreAttached | packages/deeprun-backend/src/governance/governance-evaluator.ts:216-307 | Over every run the entries a worker puts into its manifest are exactly those of the cores it linked, in order. |
| GovernanceVerdict.ChecksDecideTheVerdict | packages/deeprun-backend/src/governance/governance-evaluator.ts:216-330 | From checks to the stored verdict, over every run: when a worker that linked exactly the records of some checks completes, its manifest stays, and any decision ever stored over it passes if and only if each expected check was produced and its last occurrence passed. |
| DecisionRules.WeighEvidence | packages/deeprun-backend/src/governance/decision-issuer.ts:111-149 | The loop stops at the first missing, mismatched, untrusted or erroneous evidence and otherwise collects all reasons. |
| DecisionRules.WeighIsManifestReasons | packages/deeprun-backend/src/governance/decision-issuer.ts:103-149 | A successful weighing depends only on which validators the profile names and on the manifest, not on order or time of reading. |
| IssuerRules.WeighsExactlyWhen | packages/deeprun-backend/src/governance/decision-issuer.ts:111-149 | The weighing succeeds if and only if every required validator has evidence about this subject, profile and contract, produced here and not in error; its reasons are then exactly that one failed or was skipped and all their own codes. |
| IssuerRules.FirstFaultDecides | packages/deeprun-backend/src/governance/decision-issuer.ts:111-149 | The first required validator without accepted evidence decides the error. |
| IssuerRules.WeighCoreRefuses | packages/deeprun-backend/src/governance/decision-issuer.ts:117-137 | The error of one piece of evidence is the first of subject, profile, contract, trust and error status that is wrong. |
| ArtifactIngestion.Store.ClaimArtifactIngestion | packages/deeprun-backend/src/governance/governance-store.ts:521-649 | Answers claimed, conflict, replayed or in progress, in the source's order of checks, and changes the row only when it answers claimed. |
| ArtifactIngestion.Store.RenewArtifactIngestionClaim | packages/deeprun-backend/src/governance/governance-store.ts:651-681 | Extends the claim exactly for the current generation, owner and digest before expiry. |
| ArtifactIngestion.Store.CompleteArtifactIngestionClaimAndCreateArtifact | packages/deeprun-backend/src/governance/governance-store.ts:683-816 | Commits artifact and claim together exactly when the claim is held; otherwise nothing changes. |
| ArtifactIngestion.RunKeeps | packages/deeprun-backend/src/governance/governance-store.ts:521-816 | Over any run, a claim is complete exactly when it names an existing artifact of its own digest, and digests, artifacts and completed claims never change. |
| ArtifactIngestion.CompletionCommitsOnce | packages/deeprun-backend/src/governance/governance-store.ts:683-816 | A completion that succeeds commits under a key that had no artifact, with the digest fixed when the key was first claimed. |
| ArtifactIngestion.CommittedForever | packages/deeprun-backend/src/governance/governance-store.ts:574-592 | Once committed, a key keeps its artifact; no later completion succeeds, and every later claim from a host with any clock replays that artifact or is a conflict of digests. |
| ArtifactIngestion.ReplaysAreCommitted | packages/deeprun-backend/src/governance/governance-store.ts:579-592 | A replay is answered exactly for committed keys of that digest, with their artifact; the missing-artifact error is unreachable. |
| ArtifactIngestion.TakeoverNeedsExpiry | packages/deeprun-backend/src/governance/governance-store.ts:594-632 | A key is taken over only after its lease expired by the database clock, for every host clock, and the old generation is then fenced off for good. |
| ArtifactIngestion.RunningLeaseKeepsOthersOut | packages/deeprun-backend/src/governance/governance-store.ts:594-632 | While a lease runs, no claim from any host changes anything. |
| ArtifactIngestion.ReusedIdIsReplayedWrongly | packages/deeprun-backend/src/governance/governance-store.ts:760-781 | With a reused artifact id the insert overwrites and an earlier key replays another artifact: fresh ids are needed. |
| ArtifactIngestion.ReplaysKeptExactlyWhen | packages/deeprun-backend/src/governance/governance-store.ts:760-781 | An insert of an artifact, by a completion or without a key, keeps the answer of every claim that is replayed if and only if no key replays another artifact under its id. |
| IngestionRules.TakenOverExactlyWhen | packages/deeprun-backend/src/governance/governance-store.ts:574-649 | A key that was asked for is taken over if and only if the digest is the same, it is not complete and its lease has passed by the database clock and the host clock; generation, owner and lease are then new and nothing else is. |
| IngestionRules.FreshKeyIsClaimed | packages/deeprun-backend/src/governance/governance-store.ts:532-572 | A key nobody asked for is claimed under generation one for at least thirty seconds. |
| IngestionRules.RefusedClaimIsTold | packages/deeprun-backend/src/governance/governance-store.ts:574-632 | What a claim that is not granted is told, on the row: conflict, in progress, the committed artifact, or that it is missing. |
| IngestionRules.RenewedExactlyWhen | packages/deeprun-backend/src/governance/governance-store.ts:651-681 | A renewal runs the lease on from now if and only if digest, generation and owner are those of an incomplete row whose lease still runs. |
| IngestionRules.CompletedExactlyWhen | packages/deeprun-backend/src/governance/governance-store.ts:683-816 | A completion stores the artifact and ties the key to it under the same guard and for the digest of the key, and otherwise changes nothing. |
| IngestionRules.HolderIsNotRobbed | packages/deeprun-backend/src/governance/governance-store.ts:594-632 | Over every run: while a holder may still renew or complete, no claim of its key from a host with any clock changes anything. |
| IngestionRules.ExpiredKeyIsTaken | packages/deeprun-backend/src/governance/governance-store.ts:594-649 | Over every run: a claim with the key's digest is granted if and only if the key is not complete and its lease has passed by both clocks. |
| IngestionRules.KeyIsCommitted | packages/deeprun-backend/src/governance/governance-store.ts:521-816 | A concrete run with fresh ids: a key is claimed, taken over when its lease has run out, renewed and completed, and the first host asking again is answered with what was stored. |
| CanonicalAdapter.AggregateChecks | packages/deeprun-backend/src/governance/canonical-adapter.ts:194-255 | The loop's status is FAIL if any check fails, PASS if all pass, else SKIPPED; the reasons are those of every failed check and of the first check that did not pass. |
| CanonicalAdapter.Evaluate | packages/deeprun-backend/src/governance/canonical-adapter.ts:123-263 | Seven records in order, bound to the assessment; a record is skipped exactly when a prerequisite failed and otherwise has its checks' status and reasons. |
| AdapterRules.SevenResults | packages/deeprun-backend/src/governance/canonical-adapter.ts:40-109 | The seven records in order with their checks: each waits for the one before it, tests and runtime health both for the build; one that waits for a failure is skipped for that reason, any other fails if one of its checks did, passes if they all did, and gives exactly the failed checks and the first that was skipped or not produced. |
| AdapterRules.NineChecks | packages/deeprun-backend/src/governance/canonical-adapter.ts:40-97 | The nine checks that have to pass, by name: for each one the last occurrence in the list counts. |
| CanonicalAdapter.AllPassExactlyWhenChecksPass | packages/deeprun-backend/src/governance/canonical-adapter.ts:144-263 | Every record passes if and only if all nine expected checks do; no record is ever in error. |
| CanonicalAdapter.SortedEntriesAreAManifest | packages/deeprun-backend/src/governance/assessment-evidence.ts:79-100 | Sorting the entries by any total order gives a manifest that holds exactly the results. |
| CanonicalAdapter.VerdictIsTheChecks | packages/deeprun-backend/src/governance/decision-issuer.ts:212-260 | Evidence that holds what the manifest names is always weighed to a decision, whatever the order of checks, manifest and profile, and it passes if and only if each expected check was produced and its last occurrence passed. |
| KernelLoop.RunTransaction | packages/deeprun-backend/src/agent/kernel.ts:3898-4061 | Whether a mutating step survives its file transaction, whether it committed and whether it broke an invariant. |
| KernelLoop.VerifyRuntime | packages/deeprun-backend/src/agent/kernel.ts:4063-4124 | A runtime check decides by the reported runtime status; a repeated failure signature in enforce mode sets the rollback reason. |
| KernelLoop.ValidateHeavily | packages/deeprun-backend/src/agent/kernel.ts:4126-4228 | A failed heavy validation is let through only without regression in enforce mode and with a correction left to queue. |
| KernelLoop.RunChecks | packages/deeprun-backend/src/agent/kernel.ts:3881-4260 | The checks in sequence, each overruling the one before, record exactly what the declarative definition of a completed step says. |
| KernelRules.CompletedExactlyWhen | packages/deeprun-backend/src/agent/kernel.ts:3898-4260 | When a step counts as completed, leaves a commit or breaks an invariant, on what the tool, the transaction, the runtime check, heavy validation and policy answered. |
| KernelRules.DecidedExactlyWhen | packages/deeprun-backend/src/agent/kernel.ts:4307-4400 | Which steps are answered by a heavy correction, by a runtime correction or by going on, on the same answers, including which error message counts. |
| KernelExecution.ExecuteLoop | packages/deeprun-backend/src/agent/kernel.ts:3774-4498 | For every behaviour of planner, tools and validators the loop ends, within (plan length - start) + 2 x runtime corrections left + heavy corrections left steps; every record follows from the plan it was given and the records before it, and its follow-ups, status and rollback are fixed. |
| KernelRules.CorrectedExactlyWhenFewerBlock | packages/deeprun-backend/src/agent/kernel.ts:4157-4200 | Of the records of every execution in enforce mode: of two heavy validations that fail one after the other, the second is answered by a heavy correction if and only if fewer failures block than at the first and a heavy correction is left. |
| KernelRules.BlockingFalls | packages/deeprun-backend/src/agent/kernel.ts:4157-4200 | In enforce mode blocking counts fall strictly from one heavy correction to a later one, if no heavy validation passes between them and every failure between them is answered by a heavy correction. |
| KernelRules.RunRisingCount | packages/deeprun-backend/src/agent/kernel.ts:4157-4400 | Why that condition is needed: a call of the loop in enforce mode that answers 5 and later 6 blocking failures by heavy corrections with no pass between, since a failure between them ended a runtime check and was answered by a runtime correction. |
| KernelRules.CorrectedWithoutTheGuard | packages/deeprun-backend/src/agent/kernel.ts:4157-4200 | Without the guard, and for the first heavy failure in any case, it is answered if and only if a heavy correction is left. |
| KernelRules.LatestIsCarried | packages/deeprun-backend/src/agent/kernel.ts:4190-4217 | The count carried along is that of the latest heavy validation if it failed, and none if it passed. |
| KernelRules.SignatureIsCarried | packages/deeprun-backend/src/agent/kernel.ts:4075-4116 | The signature carried along is that of the latest runtime check if it failed, and none if it passed. |
| KernelRules.CorrectionsAreCounted | packages/deeprun-backend/src/agent/kernel.ts:753-760 | The counters are the steps of the plan whose ids have the prefixes, and one more for every record answered by such a correction. |
| KernelRules.PlanGrowsBy | packages/deeprun-backend/src/agent/kernel.ts:3531-3720 | What each record inserts after its step: one correction for a heavy failure, a correction and the step again as a runtime check for the other, with their kinds, tools and ids. |
| KernelRules.NextStepIs | packages/deeprun-backend/src/agent/kernel.ts:4307-4400 | The step recorded after one that was answered is its correction; a step that failed and is not the last was answered. |
| KernelRules.EndsExactlyWhen | packages/deeprun-backend/src/agent/kernel.ts:4402-4492 | An execution ends complete if and only if its last step completed with nothing planned or to be corrected after it and the goal is delivered; it is rolled back if and only if nothing more may be corrected and a guard, a policy, heavy validation or a spent limit was the reason. |
| KernelRuns.ExecutionIsDetermined | packages/deeprun-backend/src/agent/kernel.ts:3774-4498 | What the loop promises leaves one outcome: any records and run that meet it for the same plan and the same outside are equal. |
| KernelExecution.CompleteIsSound | packages/deeprun-backend/src/agent/kernel.ts:3873-4492 | A complete run executed each planned step once in order; each failure is directly followed by a queued correction, failed runtime checks and tool inputs were retried later, policy held, the last step passed with heavy validation ok, and delivery was proved. |
| KernelExecution.WhenConvergenceStops | packages/deeprun-backend/src/agent/kernel.ts:4077-4106 | A repeated runtime failure in enforce mode stops the run if and only if no runtime correction is left; a regressed heavy validation does unless the step is a runtime check with a correction left. |
| KernelRuns.RunRepeatedFailure | packages/deeprun-backend/src/agent/kernel.ts:4077-4106 | A call of the loop in enforce mode, on a check that fails, is corrected and fails with the same signature again: the rollback reason is set and a further correction is executed. |
| KernelExecution.WhenPolicyStops | packages/deeprun-backend/src/agent/kernel.ts:4230-4260 | A correction that breaks the policy is passed over exactly when heavy validation fails on the same last step without regression and with a correction left, or a runtime correction is queued for it; otherwise the run stops. |
| KernelRuns.RunPolicyViolation | packages/deeprun-backend/src/agent/kernel.ts:4230-4360 | A call of the loop with policies enforced: a correction that breaks the policy fails heavy validation, another is queued, and the run ends complete. |
| KernelDriver.RetryInvariantFailures | packages/deeprun-backend/src/agent/kernel.ts:4548-4603 | At most three retries at one attempt count, each with the planner steps of its own round inserted after the failed one and run from there; it gives up exactly when no invariant was broken, three retries are used up or there is no plan. |
| KernelDriver.CorrectValidationFailures | packages/deeprun-backend/src/agent/kernel.ts:4605-5047 | Every further execution is what the validation of its round calls for and uses up an attempt or one of three retries; the loop ends exactly when nothing is to be executed next, and returns what the last execution left. |
| KernelDriver.ExecuteWithValidationAutoCorrection | packages/deeprun-backend/src/agent/kernel.ts:4517-5050 | For every planner and validator the driver ends after at most 9 executions from zero attempts (5 from one, 4 from two on); the attempt count never falls or passes two; execution i + 1 is the one round i calls for, and the driver stops exactly when it threw, may not correct (no builder profile, no mutation), or nothing is to be executed next. |
| DriverRules.FirstFailureIsCorrected | packages/deeprun-backend/src/agent/kernel.ts:4537-4978 | A builder run with a mutation at any place of its plan, whose first execution completes and fails validation correctably, is executed again with the planner's steps appended, if there are any and fewer than two attempts are used. |
| DriverRules.FirstBreakIsRetried | packages/deeprun-backend/src/agent/kernel.ts:4548-4603 | One whose first execution breaks an invariant is executed again with the planner's steps right after the step that failed. |
| DriverRules.OtherRunsAreExecutedOnce | packages/deeprun-backend/src/agent/kernel.ts:4535-4546 | A run of another profile or without a mutation anywhere in its plan is executed once and never validated. |
| DriverRules.FollowsExactlyWhen | packages/deeprun-backend/src/agent/kernel.ts:4548-5047 | Every further execution exists because the planner gave steps and the one before it is corrected or retried, with the plan and start given for each; attempts, failures and debt are read off the executions before. |
| DriverRules.StopsExactlyWhen | packages/deeprun-backend/src/agent/kernel.ts:4548-5047 | The last execution of an eligible run is neither corrected nor retried, or the planner gave no steps. |
| DriverRules.ProgressIs | packages/deeprun-backend/src/agent/kernel.ts:4548-5047 | What the driver carries along is determined by the executions so far: it has validated from the first completed one on, each further completed one used an attempt, and failures count since the latest of these. |
| DriverRules.NineFiveFour | packages/deeprun-backend/src/agent/kernel.ts:4517-5050 | The limit in numbers: nine executions without an attempt used, five after one, four after two or more. |
| DriverRules.ReturnedExactlyWhen | packages/deeprun-backend/src/agent/kernel.ts:5015-5035 | What is returned is what the last execution left, or, forced, the same run as complete behind its failed step. |
| DriverSoundness.DriverIsDetermined | packages/deeprun-backend/src/agent/kernel.ts:4517-5050 | Planner, validator and executions determine every execution the driver makes, with its plan, its start and its result. |
| DriverSoundness.CompleteIsSoundUnlessForced | packages/deeprun-backend/src/agent/kernel.ts:4980-5035 | A run returned complete was soundly completed by its last execution if and only if that execution was not forced, which is if and only if its last step completed; forcing takes a configuration that guards invariants. |
| DriverSoundness.ForcedRun | packages/deeprun-backend/src/agent/kernel.ts:5015-5035 | For every configuration that guards invariants and every attempt count below two, a call of the driver with a concrete planner and validator returns a complete run whose last step broke an invariant. |
| DriverSoundness.UnsoundCompleteExactlyWhen | packages/deeprun-backend/src/agent/kernel.ts:4517-5050 | A run can be returned complete without having been soundly completed if and only if it is a builder run, its configuration guards invariants and a correction attempt is left, all known before the call. |
| DriverSoundness.StepsStayInOrder | packages/deeprun-backend/src/agent/kernel.ts:4295-4296 | A run whose recorded steps are in order of their indices and before its start keeps them so through every execution of the driver, so the sort after each push changes nothing. |
| CanonicalJsonReader.StringReadsBack | packages/deeprun-backend/src/governance/decision.ts:112-114 | Escaped text, with surrogate pairs, lone surrogates and control characters, reads back as the string, whatever follows the quote. |
| CanonicalJsonTheorem.CanonicalReads | packages/deeprun-backend/src/governance/decision.ts:111-130 | The canonical text of any JSON value is read back as the value's meaning, whatever text follows. |
| CanonicalJsonTheorem.SameMeaningSameText | packages/deeprun-backend/src/governance/decision.ts:116-130 | Values equal up to object key order have the same text. |
| CanonicalJsonTheorem.SameTextExactlyWhenSameMeaning | packages/deeprun-backend/src/governance/decision.ts:111-130 | Two JSON values have the same canonical text if and only if they are equal up to object key order. |
| KeyOrder.LessEqExactlyWhen | packages/deeprun-backend/src/governance/decision.ts:120-128 | One key is sorted before another if and only if it is a proper beginning of it or smaller at the first code unit where they differ. |
| KeyOrder.MembersStandInOrder | packages/deeprun-backend/src/governance/decision.ts:120-129 | The members of an object stand in its text once each, between braces and commas, at keys that strictly increase in that order. |
| KeyOrder.TwoKeys | packages/deeprun-backend/src/governance/decision.ts:120-129 | `{"a":null,"b":null}` is the text of both objects with these members. |
| KeyOrder.OtherValuesAreWritten | packages/deeprun-backend/src/governance/decision.ts:111-118 | The text of null, booleans, numbers, strings and arrays, unit by unit. |
| KeyOrder.FirstUnitIsWritten | packages/deeprun-backend/src/governance/decision.ts:112-114 | How each code unit of a string is written: short escapes, control units, lone surrogates, pairs and all others. |
| GraphPeeling.BuildMaps | packages/deeprun-backend/src/agent/graph-identity.ts:127-138 | Adjacency lists each successor once while in-degree counts every edge, also those that touch unknown ids. |
| GraphPeeling.ReleaseNeighbors | packages/deeprun-backend/src/agent/graph-identity.ts:152-158 | Each neighbor loses one incoming edge and those that reach zero join the queue in order. |
| GraphAcyclicity.ValidateGraphAcyclic | packages/deeprun-backend/src/agent/graph-identity.ts:126-162 | The loop ends for all lists; with known endpoints the answer is true if and only if node ids are distinct, no edge is repeated and there is no cycle, and for lists of any form it is true if and only if as many ids can be taken one after another, in whichever order, as nodes were given. |
| GraphAcyclicity.EveryOrderTakesTheSame | packages/deeprun-backend/src/agent/graph-identity.ts:140-161 | Whichever ready id is taken first each time, in the end the same ids have been taken, unknown endpoints included. |
| GraphAcyclicity.AcceptedExactlyWhenAcyclic | packages/deeprun-backend/src/agent/graph-identity.ts:140-161 | With known endpoints every order of taking ready nodes covers the nodes if and only if ids and edges are distinct and there is no cycle, and it is then topological. |
| GraphAcyclicity.StuckHasCycle | packages/deeprun-backend/src/agent/graph-identity.ts:148-161 | A node that is never taken leads to a cycle among the nodes never taken. |
| GraphAcyclicity.RefuseRepeatedEdge | packages/deeprun-backend/src/agent/graph-identity.ts:135-138 | A call of the check on an acyclic graph with distinct nodes, known endpoints and one edge given twice: it answers false. |
| GraphAcyclicity.AcceptUnknownEndpoint | packages/deeprun-backend/src/agent/graph-identity.ts:135-138 | A call of the check on a graph with a self-loop and an edge to an unknown id, distinct otherwise: it answers true. |
| GraphRevisions.CreateExecutionGraph | packages/deeprun-backend/src/lib/graph-store.ts:145-157 | The store's two checks together accept exactly the acyclic graphs with distinct nodes, distinct edges and known endpoints, and give their canonical lists. |
| GraphRevisions.CanonicalForgetsOrder | packages/deeprun-backend/src/agent/graph-identity.ts:71-97 | Canonical node and edge lists do not depend on the order nodes and edges are given in. |
| GraphRevisions.CanonicalForgetsRunIds | packages/deeprun-backend/src/agent/graph-identity.ts:71-97 | Canonical lists do not change when the runs are renamed consistently. |
| RevisionRules.CanonicalNodesAscend | packages/deeprun-backend/src/agent/graph-identity.ts:71-76 | The canonical nodes are the hashes of all nodes in ascending code-unit order, each as often as it occurs. |
| RevisionRules.CanonicalEdgesAscend | packages/deeprun-backend/src/agent/graph-identity.ts:78-97 | The canonical edges are, one for one, the edges by the hashes at their ends, ascending by the first hash and then by the second. |
| RevisionRules.HashedExactlyWhen | packages/deeprun-backend/src/agent/graph-identity.ts:78-97 | An edge has hashes if and only if both its ends are nodes with a hash. |
| GraphRevisionDiff.BuildGraphRevisionDiff | packages/deeprun-backend/src/agent/graph-revision-diff.ts:17-111 | The lists are the sorted set differences both ways, built by filter and by loop over key sets; revisions of different graphs are refused. |
| GraphRevisionDiff.EdgeDiffHolds | packages/deeprun-backend/src/agent/graph-revision-diff.ts:47-89 | The edge lists hold exactly the hashed edges of one revision the other lacks, each once; joining and splitting keys at the colon loses nothing. |
| RevisionRules.DiffsAscend | packages/deeprun-backend/src/agent/graph-revision-diff.ts:29-89 | All lists of a diff ascend in code-unit order. |
| RevisionRules.RepeatedIdsReadDifferently | packages/deeprun-backend/src/agent/graph-revision-diff.ts:43-60 | Of two nodes with one run id the canonical edges take the last and a diff the first; an unknown end shows as `undefined`. |
| GraphRevisionDiff.EmptyExactlyWhenSameSets | packages/deeprun-backend/src/agent/graph-revision-diff.ts:29-89 | All four lists are empty if and only if the revisions have the same set of hashes and the same set of hashed edges. |
| GraphRevisionDiff.EmptyExactlyWhenCanonicalEqual | packages/deeprun-backend/src/agent/graph-revision-diff.ts:29-89 | Without repeated hashes or edges, all four lists are empty if and only if the canonical lists are equal. |
| GraphRevisionDiff.NodeDiffPatchesExactlyWhen | packages/deeprun-backend/src/agent/graph-revision-diff.ts:29-41 | Removing what was removed and adding what was added turns the canonical nodes of one revision into those of the other if and only if every hash both have occurs equally often in both. |
| GraphRevisionDiff.EdgeDiffPatchesExactlyWhen | packages/deeprun-backend/src/agent/graph-revision-diff.ts:43-89 | The edge lists do the same for the canonical edges if and only if shared hashed edges occur equally often and every other one occurs once. |
| GraphRevisionDiff.IdentityCounts | packages/deeprun-backend/src/agent/graph-identity.ts:71-124 | The identity is the same if and only if the policy, the multiset of hashes and the multiset of hashed edges are. |
| GraphRevisionDiff.IdentityChangesWithTheLists | packages/deeprun-backend/src/agent/graph-revision-diff.ts:91-96 | A changed policy or a list that is not empty always comes with a changed identity; the converse holds if and only if revisions of one policy with the same sets of hashes and hashed edges have them equally often. |
| GraphRevisionDiff.RepeatedHashIsNotSeen | packages/deeprun-backend/src/agent/graph-revision-diff.ts:29-41 | A concrete pair of revisions with a repeated hash: identities and canonical nodes differ although no list shows it. |
| GraphRevisionDiff.RepeatedEdgeIsListedOnce | packages/deeprun-backend/src/agent/graph-revision-diff.ts:43-89 | A concrete revision whose two edges of one hash pair are listed once though the canonical edges hold both. |
| LifecycleRun.NormalizeLimit | packages/deeprun-backend/src/agent/run-service.ts:52-58 | A limit within its range is kept, one outside is clamped, and what is no number becomes the fallback. |
| LifecycleRules.CreatedWith | packages/deeprun-backend/src/agent/run-service.ts:154-190 | A new run is queued in the goal phase with nothing used; its limits are 20, 2 and 2 unless requested, within 1 to 1000 and 0 to 100. |
| LifecycleRules.GoalStepsAre | packages/deeprun-backend/src/agent/run-service.ts:60-64 | Five goal steps unless configured, at least one and never more than the run has. |
| LifecycleRun.StoredRun.ExecuteNextStep | packages/deeprun-backend/src/agent/run-service.ts:383-588 | One transaction on the stored row equals one tick, writes exactly the tick's statuses, and restores the row when a transition throws. |
| LifecycleRules.StepIsTaken | packages/deeprun-backend/src/agent/run-service.ts:383-588 | The step of a run that may go on: what is recorded and counted, when the run turns to optimizing, when it completes, and when the tick throws. |
| LifecycleRules.SpentRunsEnd | packages/deeprun-backend/src/agent/run-service.ts:75-109 | A run out of steps or corrections fails; one out of optimizations completes, or throws from `correcting`. |
| LifecycleRules.OtherStepIsSkipped | packages/deeprun-backend/src/agent/run-service.ts:383-460 | A tick meant for another step only starts the run and asks again. |
| LifecycleRules.OtherRunsAreSkipped | packages/deeprun-backend/src/agent/run-service.ts:383-460 | A run that is validating or has ended is left alone. |
| LifecycleRules.EdgeExactlyWhen | packages/deeprun-backend/src/agent/lifecycle-graph.ts:14-34 | The status graph, pair by pair. |
| LifecycleRules.CancelAndResume | packages/deeprun-backend/src/agent/run-service.ts:253-381 | Every run that has not ended can be cancelled, a failed or cancelled one resumed, and nothing else changes. |
| LifecycleTheorems.LedgerHasNoGaps | packages/deeprun-backend/src/agent/run-service.ts:383-588 | Over any ticks, cancels and resumes the steps are 0 to stepIndex-1 without gap or repeat, the phase is goal exactly below the target, and complete runs took target plus all optimizations. |
| LifecycleTheorems.StatusesFollowTheGraph | packages/deeprun-backend/src/agent/lifecycle-graph.ts:14-34 | Every status change of such a run, the unasserted phase switch included, is an edge of the graph, and no tick throws. |
| LifecycleTheorems.SwitchIsAnEdgeFromRunning | packages/deeprun-backend/src/agent/run-service.ts:539-545 | The unasserted switch to optimizing is an edge if and only if the run is running. |
| LifecycleTheorems.CorrectingRunLeavesTheGraph | packages/deeprun-backend/src/agent/run-service.ts:206-218 | A concrete run marked correcting whose phase switch is not an edge. |
| LifecycleTheorems.RunsOut | packages/deeprun-backend/src/agent/run-service.ts:75-109 | Ticked to the end, a run completes with target + maxOptimizations steps if that is within maxSteps and otherwise fails with exactly maxSteps. |
| LifecycleTheorems.NoCorrectionsAllowedFailsAtOnce | packages/deeprun-backend/src/agent/run-service.ts:84-90 | A run with a correction limit of zero fails on its first tick. |
| LifecycleTheorems.TickSpends | packages/deeprun-backend/src/agent/run-service.ts:572-577 | A run in any state asks for another tick only after moving one step on, and never again once it stops asking. |
| LifecycleWorker.KeyParsesBack | packages/deeprun-backend/src/agent/run-worker.ts:9-24 | A job key parses back to its job if and only if the project id has no colon. |
| LifecycleRules.ServedExactlyWhen | packages/deeprun-backend/src/agent/run-worker.ts:52-76 | Serving a key ticks the run it names if that is a run of its project, touches no other row, and queues the key again exactly when the tick asks for it. |
| LifecycleRules.DrainCosts | packages/deeprun-backend/src/agent/run-worker.ts:43-83 | What a queued run can cost: a service for every step it has left, and one more. |
| LifecycleWorker.Worker.Drain | packages/deeprun-backend/src/agent/run-worker.ts:43-83 | The drain empties the queue with at most the sum of (maxSteps - stepIndex + 1) ticks; each service is one tick of its run and no other row changes, keys are served first come first served with requeued keys at the end, and no run it served asks again. |
| LifecycleWorker.NextPassServesTheQueue | packages/deeprun-backend/src/agent/run-worker.ts:52-76 | Whatever waits in the queue at some moment is served next, in that order, with nothing in between: a run waits at most one pass. |
| LifecycleWorker.Worker.Enqueue | packages/deeprun-backend/src/agent/run-worker.ts:32-37 | A job is queued once, behind the others; with no drain under way they are all served in turns, each service one tick of its run, until none asks again; with one under way nothing is served and the job waits in the queue. |
| LifecycleRules.FirstComeFirstServed | packages/deeprun-backend/src/agent/run-worker.ts:32-76 | What waits is served in the order it waits in and a new job right behind it; a job that is queued already keeps its place. |
| ExecutionConfig.ParseBoundedInt | packages/deeprun-backend/src/agent/execution-contract.ts:145-156 | Numbers are clamped into range, not refused; a number in range is kept. |
| ExecutionConfig.NormalizeExecutionConfig | packages/deeprun-backend/src/agent/execution-contract.ts:317-484 | Field by field assignment over the base gives what the record says where it says something and the base elsewhere; only a version that is no number and an invalid result are refused. |
| ConfigRules.NormalizedExactlyWhen | packages/deeprun-backend/src/agent/execution-contract.ts:110-484 | Every field is what the record gives within its bounds, else the base's, else what the ci or smoke profile sets, else the environment's; a builder run has both validations off; refused are exactly versions that are no number and results out of bounds. |
| ConfigRules.CompleteRecordsAreAccepted | packages/deeprun-backend/src/agent/execution-contract.ts:317-484 | A record that gives every limit is never refused, whatever base and environment hold. |
| ConfigRules.ResolvedExactlyWhen | packages/deeprun-backend/src/agent/execution-contract.ts:486-549 | What a stored and a requested record resolve to, and which of base and environment a request starts from. |
| ExecutionConfig.EveryFiniteVersionIsAccepted | packages/deeprun-backend/src/agent/execution-contract.ts:403-406 | A record is refused for its version if and only if the version is neither missing nor a finite number or boolean; any finite version is read like version 1. |
| ExecutionConfig.VersionSevenIsAccepted | packages/deeprun-backend/src/agent/execution-contract.ts:143-156 | A record of version 7 is accepted and gives the config it started from. |
| ExecutionConfig.PersistedConfigIsFixed | packages/deeprun-backend/src/agent/execution-contract.ts:550-576 | A persisted complete valid config is a fixed point of normalization under every environment; for builder runs exactly when both validation modes are off. |
| ExecutionConfig.RequestChangesWhatItNames | packages/deeprun-backend/src/agent/execution-contract.ts:486-537 | A request without a profile changes only fields it names, whatever the environment; in a builder run it changes neither validation mode even if named. |
| ExecutionConfig.NamingTheProfileResetsTheRest | packages/deeprun-backend/src/agent/execution-contract.ts:506-520 | A request that names even the same profile takes every other field from the environment again. |
| ExecutionConfig.ResolvedIsValid | packages/deeprun-backend/src/agent/execution-contract.ts:486-549 | Whatever was stored, requested or configured, a resolved config is within the schema, and its diff is empty exactly when nothing changed. |

## Left out

- GovernanceStore.Store.LinkEvidenceToAssessment: takes check and insert as one call; in GovernanceProtocol they are two events with anything in between.
- GovernanceSafety.WorkKeeps: the evaluator's statements may come in any order and number, which covers every path of the source and more.
- KernelExecution.ExecuteLoop: keeps the recorded steps in the order they were pushed, for any steps recorded before; the source sorts them by index, attempt and time after each push, which StepsStayInOrder proves to change nothing when the earlier steps are in order and before the start.
- LifecycleWorker.Worker.Drain: runs without other requests arriving or cancelling during the drain.
- SourceTreePaths.Walk: takes the walked files as a list; directories, symbolic links and special files, which the source descends into or refuses, are not entries of it.
- NormalizedBundle.CreateNormalizedSourceTreeBundle: a file that changes between the walk and the read is not modelled.
- NormalizedBundle.MaterializeNormalizedSourceTreeBundle: a path that is a directory of another path of the same archive, which the file system refuses, is not modelled.
- ArtifactIngestion.Store.CompleteArtifactIngestionClaimAndCreateArtifact: the blob and source-tree rows that the same transaction upserts are not modelled.
- Unicode: paths are byte strings, with no NFC normalization, no UTF-8 decoding, no case folding beyond ASCII, and no U+2028 or U+2029 as line breaks.
- localeCompare stands for any total preorder; JavaScript's own sort for insertion sort.
- canonicalJson on `undefined`, NaN and infinite numbers, which the schemas in front of it refuse; number printing itself.
- Parsing of stored JSON by the schemas, evidence envelopes, diagnostics and log references: they decide nothing.
- createAssessmentGraphIdempotently: assessments, attempts and jobs appear as single events with fresh ids.
- completeJob and persistEvidenceManifest of the store, which worker, evaluator and issuer do not use.
- Timers, polling, abort signals and shutdown of the worker: a process may take its next step at any time or never.
- Foreign keys with cascades and deletions of rows: nothing in these cores deletes.
- The file session, git commits, worktree recovery and the execution lock's acquisition: outcomes of a transaction and one lock check per step.
- Recomputing which steps of a changed plan mutate: plans and planner answers carry that flag already.
- Text building for planner prompts, import recipes, stub debt and learning telemetry; the planner's answer is arbitrary.
- The source map and the fallback flags of an execution contract, and the contract's hash material.
- HTTP routes, sessions, metrics, Docker deployment and the web client.
