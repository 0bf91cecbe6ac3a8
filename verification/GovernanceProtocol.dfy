/** Any number of workers and issuers over the governance tables. Every SQL statement or
    transaction is one atomic event; a process may stop for good, or stay silent past its
    lease and go on writing. An event that is not enabled changes nothing, so the reachable
    states are those of every event sequence. */
module GovernanceProtocol {
  import opened Wrappers
  import opened EvidenceRecords
  import opened DecisionRules
  import opened GovernanceTables

  const MAX_CLAIM_COUNT := 3

  datatype EvaluationOutcome = Settled | InfrastructureError(retryable: bool) | Threw

  /** Where one call of processJob stands. */
  datatype WorkerPc = JobTaken | GivingUp | Started | Evaluating | Wrapping(outcome: EvaluationOutcome) | Finished

  datatype Worker = Worker(
    workerId: Id,
    jobId: Id,
    assessmentId: Id,
    attemptId: Id,
    leaseGeneration: nat,
    claimCount: nat,
    pc: WorkerPc,
    linkChecked: bool,
    entries: seq<ManifestEntry>)

  datatype WorkerOp =
    | GiveUp
    | GiveUpUnwritten
    | Start
    | Beat(leaseSeconds: int)
    | MarkAttempt(attemptStatus: AttemptStatus)
    | MarkAssessment(assessmentStatus: AssessmentStatus)
    | BeginEvaluation
    | PersistCore(core: EvidenceCore)
    | CheckNotFinalized
    | AttachLink(linked: EvidenceCore)
    | Finalize(sorted: seq<ManifestEntry>)
    | FailForGood
    | Reschedule(at: int)
    | CancelHeld
    | EndEvaluation(outcome: EvaluationOutcome)
    | Leave

  /** Where one call of the issuer stands, with what it has read so far. */
  datatype IssuerPc =
    | AtStart
    | AtSelect
    | AtAssessment(attemptId: Id)
    | AtAttempt(attemptId: Id, row: Assessment)
    | AtProfile(attemptId: Id, row: Assessment, attempt: Attempt)
    | AtPolicy(attemptId: Id, row: Assessment, attempt: Attempt, profile: Profile)
    | AtContract(attemptId: Id, row: Assessment, attempt: Attempt, profile: Profile, policy: Id)
    | AtManifest(attemptId: Id, authority: Authority, profile: Profile, contractJson: Id)
    | AtEvidence(attemptId: Id, authority: Authority, profile: Profile, contractJson: Id, manifest: Manifest,
                 evidence: map<ValidatorId, EvidenceCore>, next: nat)
    | AtPersist(attemptId: Id, core: DecisionCore)
    | AtRefused(error: IssueError)
    | Returned(decision: IssuedDecision)
    | Conflicted
    | Thrown

  datatype Issuer = Issuer(assessmentId: Id, name: Id, pc: IssuerPc)

  /** One call of the evaluator, by the worker process at that index. */
  datatype Evaluation = Evaluation(pid: nat, jobId: Id, leaseGeneration: nat)

  /** `chosen` and `finishers` only record what happened: the attempt the first issuer of an
      assessment settled on, and the job whose completion wrote a manifest. */
  datatype State = State(
    t: Tables,
    workers: seq<Worker>,
    evaluations: seq<Evaluation>,
    issuers: seq<Issuer>,
    chosen: map<Id, Id>,
    finishers: map<ManifestKey, Id>)

  const START := State(NO_TABLES, [], [], [], map[], map[])

  datatype Event =
    | Tick(elapsed: nat)
    | NewAssessment(assessmentId: Id, authority: Authority)
    | NewAttempt(assessmentId: Id, attemptId: Id, jobId: Id, availableAt: int)
    | PutProfile(key: SnapshotKey, profile: Profile)
    | PutPolicy(key: SnapshotKey, policy: Id)
    | PutContract(contractHash: Id, contractJson: Id)
    | CancelUnheld(jobId: Id)
    | TakeJob(jobId: Id, workerId: Id, leaseSeconds: int)
    | Work(pid: nat, op: WorkerOp)
    | NewIssuer(assessmentId: Id, name: Id)
    | Issue(pid: nat)

  // ---- workers ---------------------------------------------------------------------

  /** What processJob may do next. A statement whose error is swallowed may be left out: giving
      up past the claim limit goes on whether or not the job could be failed. While the evaluator
      runs, its statements may come in any order and any number, which covers every path
      through it. The heartbeat goes on until the process leaves, and one
      that is under way may land after that. */
  predicate Allowed(w: Worker, op: WorkerOp) {
    match w.pc
    case JobTaken => if w.claimCount > MAX_CLAIM_COUNT then op.GiveUp? || op.GiveUpUnwritten? else op.Start?
    case GivingUp => op == MarkAttempt(AttemptError) || op == MarkAssessment(Error) || op.Leave?
    case Started => op == MarkAssessment(Running) || op.BeginEvaluation? || op.Leave?
    case Evaluating =>
      || op.Beat? || op.PersistCore? || op.CheckNotFinalized? || op.AttachLink? || op.Finalize?
      || op.FailForGood? || op.CancelHeld? || op.EndEvaluation?
      || op == MarkAttempt(AttemptRunning) || op == MarkAttempt(AttemptError) || op == MarkAttempt(AttemptCancelled)
      || op == MarkAssessment(Error) || op == MarkAssessment(Cancelled)
    case Wrapping(Settled) => op.Beat? || op.Leave?
    case Wrapping(InfrastructureError(retryable)) =>
      if retryable && w.claimCount < MAX_CLAIM_COUNT
      then op.Beat? || op.Reschedule? || op == MarkAttempt(AttemptError) || op.Leave?
      else op.Beat? || op.FailForGood? || op == MarkAttempt(AttemptError) || op == MarkAssessment(Error) || op.Leave?
    case Wrapping(Threw) => op.Beat? || op.FailForGood? || op == MarkAttempt(AttemptError) || op == MarkAssessment(Error) || op.Leave?
    case Finished => op.Beat?
  }

  function ManifestFor(w: Worker, a: Authority, sorted: seq<ManifestEntry>): Manifest {
    var core := ManifestCore(a.subjectDigest, a.profileDigest, a.executionContractHash, sorted);
    Manifest(w.assessmentId, w.attemptId, core, ManifestDigest(core), ManifestDigest(core))
  }

  /** The foreign key of a link, the trust class the evaluator forces, the sort of the manifest. */
  predicate Enabled(t: Tables, w: Worker, op: WorkerOp) {
    && Allowed(w, op)
    && (op.PersistCore? ==> op.core.trustClass.DeeprunExecuted?)
    && (op.AttachLink? ==> w.linkChecked && CoreDigest(op.linked) in t.cores)
    && (op.Finalize? ==> multiset(op.sorted) == multiset(w.entries) && w.assessmentId in t.assessments)
  }

  function WorkerTables(t: Tables, w: Worker, op: WorkerOp): Tables {
    var g := Some(w.leaseGeneration);
    match op
    case GiveUp => FailJob(t, w.jobId, w.workerId, None, g)
    case Start => StartJob(t, w.jobId, w.workerId, g)
    case Beat(leaseSeconds) => Heartbeat(t, w.jobId, w.workerId, g, leaseSeconds)
    case MarkAttempt(s) => SetAttempt(t, w.attemptId, s)
    case MarkAssessment(s) => SetAssessment(t, w.assessmentId, s)
    case PersistCore(core) => UpsertCore(t, core)
    case AttachLink(core) => InsertLink(t, LinkKey(w.assessmentId, w.attemptId, core.validatorId), CoreDigest(core))
    case Finalize(sorted) =>
      if w.assessmentId !in t.assessments then t else
      CompleteAttempt(t, w.assessmentId, w.attemptId, w.jobId, w.workerId, g,
                      ManifestFor(w, t.assessments[w.assessmentId].authority, sorted), |w.entries|)
    case FailForGood => FailJob(t, w.jobId, w.workerId, None, g)
    case Reschedule(at) => FailJob(t, w.jobId, w.workerId, Some(at), g)
    case CancelHeld => CancelJob(t, w.jobId, Some(w.workerId), g)
    case _ => t
  }

  function WorkerNext(t: Tables, w: Worker, op: WorkerOp): Worker {
    match op
    case GiveUp => w.(pc := GivingUp)
    case GiveUpUnwritten => w.(pc := GivingUp)
    case Start => w.(pc := if CanStart(t, w.jobId, w.workerId, Some(w.leaseGeneration)) then Started else Finished)
    case BeginEvaluation => w.(pc := Evaluating)
    case CheckNotFinalized => w.(linkChecked := ManifestKey(w.assessmentId, w.attemptId) !in t.manifests)
    case AttachLink(core) =>
      w.(linkChecked := false, entries := w.entries + [ManifestEntry(core.validatorId, core.validatorVersion, CoreDigest(core))])
    case EndEvaluation(outcome) => w.(pc := Wrapping(outcome))
    case Leave => w.(pc := Finished)
    case _ => w
  }

  predicate Finalizes(t: Tables, w: Worker, op: WorkerOp) {
    op.Finalize? && CanComplete(t, w.assessmentId, w.attemptId, w.jobId, w.workerId, Some(w.leaseGeneration), |w.entries|)
  }

  function WorkStep(s: State, pid: nat, op: WorkerOp): State {
    if pid >= |s.workers| || !Enabled(s.t, s.workers[pid], op) then s else
    var w := s.workers[pid];
    s.(t := WorkerTables(s.t, w, op),
       workers := s.workers[pid := WorkerNext(s.t, w, op)],
       evaluations := if op.BeginEvaluation? then s.evaluations + [Evaluation(pid, w.jobId, w.leaseGeneration)] else s.evaluations,
       finishers := if Finalizes(s.t, w, op) then s.finishers[ManifestKey(w.assessmentId, w.attemptId) := w.jobId] else s.finishers)
  }

  function TakeStep(s: State, jobId: Id, workerId: Id, leaseSeconds: int): State {
    if !Claimable(s.t, jobId) then s else
    var t' := Claim(s.t, jobId, workerId, leaseSeconds);
    var job := t'.jobs[jobId];
    s.(t := t', workers := s.workers + [Worker(workerId, jobId, job.assessmentId, job.attemptId, job.leaseGeneration,
                                               job.claimCount, JobTaken, false, [])])
  }

  // ---- issuers ------------------------------------------------------------------------

  ghost function Only(s: set<Id>): (x: Id)
    requires |s| == 1
    ensures s == {x}
  {
    var x :| x in s;
    assert |s - {x}| == 0;
    x
  }

  predicate AuthorityVerified(a: Authority, profile: Profile, policy: Id) {
    && DigestOfProfile(profile) == a.profileDigest
    && PolicyDigest(policy) == a.policyDigest
    && InputDigest(a.subjectDigest, a.profileDigest, a.policyDigest, a.executionContractHash) == a.assessmentInputHash
  }

  function ManifestComplaint(m: Manifest, assessmentId: Id, attemptId: Id, a: Authority): Option<IssueError> {
    if m.assessmentId != assessmentId then Some(SubjectMismatch)
    else if m.attemptId != attemptId then Some(EvidenceMissing)
    else if m.bodyHash != m.rowHash then Some(EvidenceMissing)
    else if m.core.subjectDigest != a.subjectDigest then Some(SubjectMismatch)
    else if m.core.profileDigest != a.profileDigest then Some(ProfileMismatch)
    else if m.core.executionContractHash != a.executionContractHash then Some(ContractMismatch)
    else None
  }

  /** The read of one required core: skipped when the manifest or the store does not have it. */
  function Gather(t: Tables, m: ManifestCore, v: ValidatorId,
                  evidence: map<ValidatorId, EvidenceCore>): map<ValidatorId, EvidenceCore> {
    match LastEntry(m.entries, v)
    case None => evidence
    case Some(e) => if e.coreHash in t.cores then evidence[v := t.cores[e.coreHash]] else evidence
  }

  ghost function IssuerNext(t: Tables, p: Issuer): IssuerPc {
    match p.pc
    case AtStart => if p.assessmentId in t.decisions then Returned(t.decisions[p.assessmentId]) else AtSelect
    case AtSelect =>
      var attempts := SelectedAttempts(t, p.assessmentId);
      if |attempts| != 1 then AtRefused(EvidenceMissing) else AtAssessment(Only(attempts))
    case AtAssessment(attemptId) =>
      if p.assessmentId in t.assessments then AtAttempt(attemptId, t.assessments[p.assessmentId]) else Thrown
    case AtAttempt(attemptId, row) =>
      if attemptId in t.attempts && t.attempts[attemptId].assessmentId == p.assessmentId
      then AtProfile(attemptId, row, t.attempts[attemptId]) else Thrown
    case AtProfile(attemptId, row, attempt) =>
      if row.authority.profileKey in t.profiles
      then AtPolicy(attemptId, row, attempt, t.profiles[row.authority.profileKey]) else Thrown
    case AtPolicy(attemptId, row, attempt, profile) =>
      if row.authority.policyKey in t.policies
      then AtContract(attemptId, row, attempt, profile, t.policies[row.authority.policyKey]) else Thrown
    case AtContract(attemptId, row, attempt, profile, policy) =>
      if row.authority.executionContractHash !in t.contracts || !AuthorityVerified(row.authority, profile, policy) then Thrown
      else if !row.status.Deciding? || !attempt.status.AttemptComplete? then AtRefused(NotComplete)
      else AtManifest(attemptId, row.authority, profile, t.contracts[row.authority.executionContractHash])
    case AtManifest(attemptId, authority, profile, contractJson) =>
      var key := ManifestKey(p.assessmentId, attemptId);
      if key !in t.manifests then AtRefused(EvidenceMissing)
      else if ManifestComplaint(t.manifests[key], p.assessmentId, attemptId, authority).Some?
      then AtRefused(ManifestComplaint(t.manifests[key], p.assessmentId, attemptId, authority).value)
      else AtEvidence(attemptId, authority, profile, contractJson, t.manifests[key], map[], 0)
    case AtEvidence(attemptId, authority, profile, contractJson, manifest, evidence, next) =>
      if next < |profile.validatorSet|
      then AtEvidence(attemptId, authority, profile, contractJson, manifest,
                      Gather(t, manifest.core, profile.validatorSet[next].id, evidence), next + 1)
      else
        var weighed := Weigh(profile.validatorSet, evidence, authority);
        if weighed.Refused? then AtRefused(weighed.error)
        else AtPersist(attemptId, DecisionOf(authority, manifest.bodyHash, contractJson, weighed.reasons))
    case AtPersist(_, core) => PersistNext(t, p, core)
    case AtRefused(_) => Thrown
    case _ => p.pc
  }

  function PersistNext(t: Tables, p: Issuer, core: DecisionCore): IssuerPc {
    match PersistOutcomeOf(t, p.assessmentId, Sign(p, core))
    case Stored(d) => Returned(d)
    case HashConflict => Conflicted
    case _ => Thrown
  }

  function Sign(p: Issuer, core: DecisionCore): IssuedDecision {
    IssuedDecision(core, DecisionDigest(core), p.name)
  }

  function IssuerTables(t: Tables, p: Issuer): Tables {
    match p.pc
    case AtPersist(_, core) => PersistDecision(t, p.assessmentId, Sign(p, core))
    case AtRefused(_) => SetAssessment(t, p.assessmentId, Error)
    case _ => t
  }

  ghost function Chosen(s: State, p: Issuer): map<Id, Id> {
    var next := IssuerNext(s.t, p);
    if p.pc.AtSelect? && next.AtAssessment? && p.assessmentId !in s.chosen
    then s.chosen[p.assessmentId := next.attemptId] else s.chosen
  }

  ghost function IssueStep(s: State, pid: nat): State {
    if pid >= |s.issuers| then s else
    var p := s.issuers[pid];
    s.(t := IssuerTables(s.t, p), issuers := s.issuers[pid := p.(pc := IssuerNext(s.t, p))], chosen := Chosen(s, p))
  }

  // ---- runs -----------------------------------------------------------------------------

  ghost function Apply(s: State, e: Event): State {
    match e
    case Tick(elapsed) => s.(t := s.t.(now := s.t.now + elapsed))
    case NewAssessment(id, authority) => s.(t := CreateAssessment(s.t, id, authority))
    case NewAttempt(id, attemptId, jobId, availableAt) => s.(t := CreateAttemptAndJob(s.t, id, attemptId, jobId, availableAt))
    case PutProfile(key, profile) => s.(t := UpsertProfile(s.t, key, profile))
    case PutPolicy(key, policy) => s.(t := UpsertPolicy(s.t, key, policy))
    case PutContract(contractHash, contractJson) => s.(t := UpsertContract(s.t, contractHash, contractJson))
    case CancelUnheld(jobId) => s.(t := CancelJob(s.t, jobId, None, None))
    case TakeJob(jobId, workerId, leaseSeconds) => TakeStep(s, jobId, workerId, leaseSeconds)
    case Work(pid, op) => WorkStep(s, pid, op)
    case NewIssuer(id, name) => s.(issuers := s.issuers + [Issuer(id, name, AtStart)])
    case Issue(pid) => IssueStep(s, pid)
  }

  ghost function Run(s: State, events: seq<Event>): State
    decreases |events|
  {
    if events == [] then s else Run(Apply(s, events[0]), events[1..])
  }
}
