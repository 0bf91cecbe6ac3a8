/** The governance tables, and what one SQL statement or one transaction does to them.
    A row is a record, a table is a map, NOW() is the field `now`.
    A digest is a constructor applied to what was hashed, so distinct contents have
    distinct digests. */
module GovernanceTables {
  import opened Wrappers
  import opened EvidenceRecords

  datatype JobStatus = JobAvailable | JobClaimed | JobRunning | JobComplete | JobFailed | JobCancelled
  datatype AttemptStatus = AttemptQueued | AttemptRunning | AttemptComplete | AttemptError | AttemptCancelled
  datatype AssessmentStatus = Queued | Running | Deciding | Complete | Error | Cancelled

  datatype Job = Job(
    assessmentId: Id,
    attemptId: Id,
    status: JobStatus,
    workerId: Option<Id>,
    leaseExpiresAt: Option<int>,
    leaseGeneration: nat,
    claimCount: nat,
    availableAt: int)

  datatype Attempt = Attempt(assessmentId: Id, status: AttemptStatus)

  datatype Assessment = Assessment(authority: Authority, status: AssessmentStatus, decisionHash: Option<Digest>)

  datatype LinkKey = LinkKey(assessmentId: Id, attemptId: Id, validatorId: ValidatorId)
  datatype Link = Link(coreHash: Digest, selected: bool)

  datatype ManifestKey = ManifestKey(assessmentId: Id, attemptId: Id)

  datatype IssuedDecision = IssuedDecision(core: DecisionCore, decisionHash: Digest, issuer: Id)

  datatype Tables = Tables(
    now: int,
    jobs: map<Id, Job>,
    attempts: map<Id, Attempt>,
    assessments: map<Id, Assessment>,
    cores: map<Digest, EvidenceCore>,
    links: map<LinkKey, Link>,
    manifests: map<ManifestKey, Manifest>,
    decisions: map<Id, IssuedDecision>,
    profiles: map<SnapshotKey, Profile>,
    policies: map<SnapshotKey, Id>,
    contracts: map<Id, Id>)

  const NO_TABLES := Tables(0, map[], map[], map[], map[], map[], map[], map[], map[], map[], map[])

  predicate Terminal(s: JobStatus) {
    s.JobComplete? || s.JobFailed? || s.JobCancelled?
  }

  predicate Held(s: JobStatus) {
    s.JobClaimed? || s.JobRunning?
  }

  function LeaseSeconds(requested: int): int {
    if requested < 30 then 30 else requested
  }

  // ---- jobs ----------------------------------------------------------------

  /** The WHERE clause of the claim: free and due, or held under a lease that ran out. */
  predicate Claimable(t: Tables, jobId: Id) {
    && jobId in t.jobs
    && var job := t.jobs[jobId];
       || (job.status.JobAvailable? && job.availableAt <= t.now)
       || (Held(job.status) && job.leaseExpiresAt.Some? && job.leaseExpiresAt.value <= t.now)
  }

  /** The guard shared by every write of a lease holder. A caller that gives no generation
      is matched on the worker alone. */
  predicate HoldsLease(t: Tables, jobId: Id, workerId: Id, generation: Option<nat>) {
    && jobId in t.jobs
    && var job := t.jobs[jobId];
       && job.workerId == Some(workerId)
       && (generation.None? || job.leaseGeneration == generation.value)
       && Held(job.status)
       && job.leaseExpiresAt.Some?
       && job.leaseExpiresAt.value > t.now
  }

  function Claim(t: Tables, jobId: Id, workerId: Id, leaseSeconds: int): Tables {
    if !Claimable(t, jobId) then t else
    var job := t.jobs[jobId];
    t.(jobs := t.jobs[jobId := job.(
      status := JobClaimed,
      workerId := Some(workerId),
      leaseExpiresAt := Some(t.now + LeaseSeconds(leaseSeconds)),
      leaseGeneration := job.leaseGeneration + 1,
      claimCount := job.claimCount + 1)])
  }

  function Heartbeat(t: Tables, jobId: Id, workerId: Id, generation: Option<nat>, leaseSeconds: int): Tables {
    if !HoldsLease(t, jobId, workerId, generation) then t else
    t.(jobs := t.jobs[jobId := t.jobs[jobId].(leaseExpiresAt := Some(t.now + LeaseSeconds(leaseSeconds)))])
  }

  predicate CanStart(t: Tables, jobId: Id, workerId: Id, generation: Option<nat>) {
    HoldsLease(t, jobId, workerId, generation) && t.jobs[jobId].status.JobClaimed?
  }

  function StartJob(t: Tables, jobId: Id, workerId: Id, generation: Option<nat>): Tables {
    if !CanStart(t, jobId, workerId, generation) then t else
    t.(jobs := t.jobs[jobId := t.jobs[jobId].(status := JobRunning)])
  }

  /** With a reschedule time the job is free again from then on; without one it has failed for good. */
  function FailJob(t: Tables, jobId: Id, workerId: Id, rescheduleAt: Option<int>, generation: Option<nat>): Tables {
    if !HoldsLease(t, jobId, workerId, generation) then t else
    var job := t.jobs[jobId];
    t.(jobs := t.jobs[jobId :=
      if rescheduleAt.Some?
      then job.(status := JobAvailable, workerId := None, leaseExpiresAt := None, availableAt := rescheduleAt.value)
      else job.(status := JobFailed, leaseExpiresAt := None)])
  }

  /** Without a worker the lease is not looked at, and a job nobody holds can be cancelled too. */
  predicate CanCancel(t: Tables, jobId: Id, workerId: Option<Id>, generation: Option<nat>) {
    && jobId in t.jobs
    && var job := t.jobs[jobId];
       && (workerId.None? || job.workerId == workerId)
       && (generation.None? || job.leaseGeneration == generation.value)
       && (job.status.JobAvailable? || Held(job.status))
       && (workerId.None? || (job.leaseExpiresAt.Some? && job.leaseExpiresAt.value > t.now))
  }

  function CancelJob(t: Tables, jobId: Id, workerId: Option<Id>, generation: Option<nat>): Tables {
    if !CanCancel(t, jobId, workerId, generation) then t else
    t.(jobs := t.jobs[jobId := t.jobs[jobId].(status := JobCancelled, leaseExpiresAt := None)])
  }

  // ---- statuses: neither write looks at a lease -------------------------------

  function SetAttempt(t: Tables, attemptId: Id, status: AttemptStatus): Tables {
    if attemptId !in t.attempts then t else
    t.(attempts := t.attempts[attemptId := t.attempts[attemptId].(status := status)])
  }

  function SetAssessment(t: Tables, assessmentId: Id, status: AssessmentStatus): Tables {
    if assessmentId !in t.assessments then t else
    t.(assessments := t.assessments[assessmentId := t.assessments[assessmentId].(status := status)])
  }

  // ---- evidence -------------------------------------------------------------

  /** Content addressed: an existing row is left as it is. */
  function UpsertCore(t: Tables, core: EvidenceCore): Tables {
    if CoreDigest(core) in t.cores then t else t.(cores := t.cores[CoreDigest(core) := core])
  }

  /** The second of the two queries of the link: it does not look at the manifest any more,
      and it keeps the selection flag of a row that exists. */
  function InsertLink(t: Tables, key: LinkKey, coreHash: Digest): Tables {
    t.(links := t.links[key := Link(coreHash, key in t.links && t.links[key].selected)])
  }

  function LinksOf(t: Tables, assessmentId: Id, attemptId: Id): set<LinkKey> {
    set k | k in t.links && k.assessmentId == assessmentId && k.attemptId == attemptId
  }

  function SelectLinks(t: Tables, assessmentId: Id, attemptId: Id): map<LinkKey, Link> {
    map k | k in t.links ::
      if k.assessmentId == assessmentId && k.attemptId == attemptId then t.links[k].(selected := true) else t.links[k]
  }

  /** The attempts that own a link selected for the decision of an assessment. */
  function SelectedAttempts(t: Tables, assessmentId: Id): set<Id> {
    set k | k in t.links && k.assessmentId == assessmentId && t.links[k].selected :: k.attemptId
  }

  // ---- the completion transaction ---------------------------------------------

  predicate CanComplete(t: Tables, assessmentId: Id, attemptId: Id, jobId: Id, workerId: Id, generation: Option<nat>,
                        validatorCount: nat)
  {
    && attemptId in t.attempts && t.attempts[attemptId].status.AttemptRunning?
    && assessmentId in t.assessments && t.assessments[assessmentId].status.Running?
    && (validatorCount > 0 ==> |LinksOf(t, assessmentId, attemptId)| >= validatorCount)
    && HoldsLease(t, jobId, workerId, generation)
  }

  function CompleteAttempt(t: Tables, assessmentId: Id, attemptId: Id, jobId: Id, workerId: Id, generation: Option<nat>,
                           manifest: Manifest, validatorCount: nat): Tables
  {
    if !CanComplete(t, assessmentId, attemptId, jobId, workerId, generation, validatorCount) then t else
    t.(
      links := SelectLinks(t, assessmentId, attemptId),
      manifests := t.manifests[ManifestKey(assessmentId, attemptId) := manifest],
      attempts := t.attempts[attemptId := t.attempts[attemptId].(status := AttemptComplete)],
      jobs := t.jobs[jobId := t.jobs[jobId].(status := JobComplete, leaseExpiresAt := None)],
      assessments := t.assessments[assessmentId := t.assessments[assessmentId].(status := Deciding)])
  }

  // ---- the decision transaction -----------------------------------------------

  datatype PersistOutcome = Stored(decision: IssuedDecision) | AssessmentMissing | HashConflict | NotDeciding | HashTaken

  /** The decision hash column is unique over all assessments. */
  predicate HashIssued(decisions: map<Id, IssuedDecision>, hash: Digest) {
    exists a :: a in decisions && decisions[a].decisionHash == hash
  }

  function PersistOutcomeOf(t: Tables, assessmentId: Id, d: IssuedDecision): PersistOutcome {
    if assessmentId !in t.assessments then AssessmentMissing
    else if assessmentId in t.decisions then
      if t.decisions[assessmentId].decisionHash != d.decisionHash then HashConflict else Stored(t.decisions[assessmentId])
    else if !t.assessments[assessmentId].status.Deciding? then NotDeciding
    else if HashIssued(t.decisions, d.decisionHash) then HashTaken
    else Stored(d)
  }

  function PersistDecision(t: Tables, assessmentId: Id, d: IssuedDecision): Tables {
    if PersistOutcomeOf(t, assessmentId, d).Stored? && assessmentId !in t.decisions
    then t.(
      decisions := t.decisions[assessmentId := d],
      assessments := t.assessments[assessmentId :=
        t.assessments[assessmentId].(decisionHash := Some(d.decisionHash), status := Complete)])
    else t
  }

  // ---- snapshots and creation ---------------------------------------------------

  function UpsertProfile(t: Tables, key: SnapshotKey, profile: Profile): Tables {
    t.(profiles := t.profiles[key := profile])
  }

  function UpsertPolicy(t: Tables, key: SnapshotKey, policy: Id): Tables {
    t.(policies := t.policies[key := policy])
  }

  function UpsertContract(t: Tables, contractHash: Id, contractJson: Id): Tables {
    if contractHash in t.contracts then t else t.(contracts := t.contracts[contractHash := contractJson])
  }

  /** Primary and foreign keys: fresh assessment, or fresh attempt and job of a known assessment. */
  function CreateAssessment(t: Tables, assessmentId: Id, authority: Authority): Tables {
    if assessmentId in t.assessments then t else
    t.(assessments := t.assessments[assessmentId := Assessment(authority, Queued, None)])
  }

  function CreateAttemptAndJob(t: Tables, assessmentId: Id, attemptId: Id, jobId: Id, availableAt: int): Tables {
    if assessmentId !in t.assessments || attemptId in t.attempts || jobId in t.jobs then t else
    t.(
      attempts := t.attempts[attemptId := Attempt(assessmentId, AttemptQueued)],
      jobs := t.jobs[jobId := Job(assessmentId, attemptId, JobAvailable, None, None, 0, 0, availableAt)])
  }
}
