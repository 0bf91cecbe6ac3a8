/** What holds in every reachable state of the governance protocol, and over every run. */
module GovernanceSafety {
  import opened Wrappers
  import opened EvidenceRecords
  import opened DecisionRules
  import opened GovernanceTables
  import opened TableInvariants
  import opened GovernanceProtocol

  // ---- the invariant ---------------------------------------------------------------

  /** The claim a worker process was started with, as the job row remembers it. */
  ghost predicate WorkerOk(jobs: map<Id, Job>, cores: map<Digest, EvidenceCore>, w: Worker) {
    && w.jobId in jobs
    && w.assessmentId == jobs[w.jobId].assessmentId && w.attemptId == jobs[w.jobId].attemptId
    && 1 <= w.leaseGeneration == w.claimCount <= jobs[w.jobId].leaseGeneration
    && (w.pc.Started? || w.pc.Evaluating? || w.pc.Wrapping? ==> w.claimCount <= MAX_CLAIM_COUNT)
    && AllStored(w.entries, cores)
  }

  ghost predicate WorkersOk(t: Tables, workers: seq<Worker>) {
    forall i :: 0 <= i < |workers| ==> WorkerOk(t.jobs, t.cores, workers[i])
  }

  predicate SameClaim(v: Worker, w: Worker) {
    v.jobId == w.jobId && v.leaseGeneration == w.leaseGeneration
  }

  /** Two processes never hold the same generation of a job. */
  ghost predicate ClaimsDistinct(workers: seq<Worker>) {
    forall i, k :: 0 <= i < |workers| && 0 <= k < |workers| && SameClaim(workers[i], workers[k]) ==> i == k
  }

  ghost predicate EvaluationOk(workers: seq<Worker>, e: Evaluation) {
    && e.pid < |workers|
    && var w := workers[e.pid];
    && w.jobId == e.jobId && w.leaseGeneration == e.leaseGeneration
    && 1 <= e.leaseGeneration <= MAX_CLAIM_COUNT
    && (w.pc.Evaluating? || w.pc.Wrapping? || w.pc.Finished?)
  }

  ghost predicate EvaluationsOk(workers: seq<Worker>, evaluations: seq<Evaluation>) {
    && (forall i :: 0 <= i < |evaluations| ==> EvaluationOk(workers, evaluations[i]))
    && (forall i, k :: 0 <= i < |evaluations| && 0 <= k < |evaluations| && evaluations[i].pid == evaluations[k].pid ==> i == k)
  }

  ghost predicate FinishersOk(t: Tables, finishers: map<ManifestKey, Id>) {
    forall key :: key in t.manifests ==>
      && key in finishers
      && JobOf(t.jobs, finishers[key], key.attemptId)
      && t.jobs[finishers[key]].assessmentId == key.assessmentId
      && t.jobs[finishers[key]].status.JobComplete?
  }

  ghost predicate ChosenOk(t: Tables, chosen: map<Id, Id>) {
    forall a :: a in chosen ==> chosen[a] in SelectedAttempts(t, a)
  }

  /** The decision core an assessment can get: computed from rows that never change. */
  ghost predicate IsCanonical(t: Tables, chosen: map<Id, Id>, assessmentId: Id, core: DecisionCore) {
    && assessmentId in t.assessments && assessmentId in chosen
    && var a := t.assessments[assessmentId].authority;
       var key := ManifestKey(assessmentId, chosen[assessmentId]);
    && key in t.manifests
    && a.executionContractHash in t.contracts
    && a.profileDigest.ProfileDigest?
    && core == CanonicalDecision(a, t.manifests[key].core, t.contracts[a.executionContractHash])
  }

  ghost predicate DecisionsOk(t: Tables, chosen: map<Id, Id>) {
    && HashesDistinct(t.decisions)
    && forall a :: a in t.decisions ==>
         IsCanonical(t, chosen, a, t.decisions[a].core) && t.decisions[a].decisionHash == DecisionDigest(t.decisions[a].core)
  }

  ghost predicate HashesDistinct(decisions: map<Id, IssuedDecision>) {
    forall a, b :: a in decisions && b in decisions && decisions[a].decisionHash == decisions[b].decisionHash ==> a == b
  }

  ghost predicate Settles(chosen: map<Id, Id>, assessmentId: Id, attemptId: Id) {
    assessmentId in chosen && chosen[assessmentId] == attemptId
  }

  ghost predicate Authorized(t: Tables, assessmentId: Id, a: Authority) {
    assessmentId in t.assessments && t.assessments[assessmentId].authority == a
  }

  ghost predicate Contracted(t: Tables, a: Authority, contractJson: Id) {
    a.executionContractHash in t.contracts && t.contracts[a.executionContractHash] == contractJson
  }

  /** The core of every validator read so far that the manifest names has been found. */
  ghost predicate GatheredUpTo(evidence: map<ValidatorId, EvidenceCore>, m: ManifestCore, validators: seq<ValidatorRef>, next: nat) {
    && next <= |validators|
    && forall k :: 0 <= k < next && ManifestEvidence(m, validators[k].id).Some? ==> validators[k].id in evidence
  }

  ghost predicate IssuerOk(t: Tables, chosen: map<Id, Id>, p: Issuer) {
    match p.pc
    case AtAssessment(attemptId) => Settles(chosen, p.assessmentId, attemptId)
    case AtAttempt(attemptId, row) => Settles(chosen, p.assessmentId, attemptId) && Authorized(t, p.assessmentId, row.authority)
    case AtProfile(attemptId, row, _) => Settles(chosen, p.assessmentId, attemptId) && Authorized(t, p.assessmentId, row.authority)
    case AtPolicy(attemptId, row, _, _) => Settles(chosen, p.assessmentId, attemptId) && Authorized(t, p.assessmentId, row.authority)
    case AtContract(attemptId, row, _, _, _) => Settles(chosen, p.assessmentId, attemptId) && Authorized(t, p.assessmentId, row.authority)
    case AtManifest(attemptId, a, profile, contractJson) =>
      && Settles(chosen, p.assessmentId, attemptId) && Authorized(t, p.assessmentId, a)
      && DigestOfProfile(profile) == a.profileDigest && Contracted(t, a, contractJson)
    case AtEvidence(attemptId, a, profile, contractJson, manifest, evidence, next) =>
      && Settles(chosen, p.assessmentId, attemptId) && Authorized(t, p.assessmentId, a)
      && DigestOfProfile(profile) == a.profileDigest && Contracted(t, a, contractJson)
      && ManifestKey(p.assessmentId, attemptId) in t.manifests
      && t.manifests[ManifestKey(p.assessmentId, attemptId)] == manifest
      && manifest.bodyHash == ManifestDigest(manifest.core)
      && Gathered(evidence, manifest.core) && GatheredUpTo(evidence, manifest.core, profile.validatorSet, next)
    case AtPersist(attemptId, core) => IsCanonical(t, chosen, p.assessmentId, core)
    case Returned(d) => p.assessmentId in t.decisions && t.decisions[p.assessmentId] == d
    case Conflicted => false
    case _ => true
  }

  ghost predicate IssuersOk(t: Tables, chosen: map<Id, Id>, issuers: seq<Issuer>) {
    forall i :: 0 <= i < |issuers| ==> IssuerOk(t, chosen, issuers[i])
  }

  ghost predicate Inv(s: State) {
    && TablesOk(s.t)
    && WorkersOk(s.t, s.workers) && ClaimsDistinct(s.workers) && EvaluationsOk(s.workers, s.evaluations)
    && FinishersOk(s.t, s.finishers)
    && ChosenOk(s.t, s.chosen) && DecisionsOk(s.t, s.chosen) && IssuersOk(s.t, s.chosen, s.issuers)
  }

  // ---- facts about rows survive every extension of the tables ---------------------------

  lemma WorkersSurvive(t: Tables, t': Tables, workers: seq<Worker>)
    requires WorkersOk(t, workers) && JobsExtend(t.jobs, t'.jobs) && Grows(t.cores, t'.cores)
    ensures WorkersOk(t', workers)
  {
    forall i | 0 <= i < |workers| ensures WorkerOk(t'.jobs, t'.cores, workers[i]) {
      assert WorkerOk(t.jobs, t.cores, workers[i]);
    }
  }

  lemma FinishersSurvive(t: Tables, t': Tables, finishers: map<ManifestKey, Id>)
    requires FinishersOk(t, finishers) && JobsExtend(t.jobs, t'.jobs) && t'.manifests == t.manifests
    ensures FinishersOk(t', finishers)
  {
    forall key | key in t'.manifests
      ensures && key in finishers && JobOf(t'.jobs, finishers[key], key.attemptId)
              && t'.jobs[finishers[key]].assessmentId == key.assessmentId && t'.jobs[finishers[key]].status.JobComplete?
    {
      assert JobExtends(t.jobs[finishers[key]], t'.jobs[finishers[key]]);
    }
  }

  lemma ChosenSurvives(t: Tables, t': Tables, chosen: map<Id, Id>)
    requires ChosenOk(t, chosen) && LinksExtend(t.links, t'.links)
    ensures ChosenOk(t', chosen)
  {
    forall a | a in chosen ensures chosen[a] in SelectedAttempts(t', a) {
      SelectionOnlyGrows(t, t', a);
    }
  }

  lemma CanonicalSurvives(t: Tables, t': Tables, chosen: map<Id, Id>, chosen': map<Id, Id>, assessmentId: Id,
                          core: DecisionCore)
    requires IsCanonical(t, chosen, assessmentId, core)
    requires AssessmentsExtend(t.assessments, t'.assessments) && Grows(t.manifests, t'.manifests)
    requires Grows(t.contracts, t'.contracts) && Grows(chosen, chosen')
    ensures IsCanonical(t', chosen', assessmentId, core)
  {
  }

  lemma DecisionsSurvive(t: Tables, t': Tables, chosen: map<Id, Id>, chosen': map<Id, Id>)
    requires DecisionsOk(t, chosen) && t'.decisions == t.decisions
    requires AssessmentsExtend(t.assessments, t'.assessments) && Grows(t.manifests, t'.manifests)
    requires Grows(t.contracts, t'.contracts) && Grows(chosen, chosen')
    ensures DecisionsOk(t', chosen')
  {
    forall a | a in t'.decisions
      ensures IsCanonical(t', chosen', a, t'.decisions[a].core) && t'.decisions[a].decisionHash == DecisionDigest(t'.decisions[a].core)
    {
      CanonicalSurvives(t, t', chosen, chosen', a, t.decisions[a].core);
    }
  }

  lemma IssuerSurvives(t: Tables, t': Tables, chosen: map<Id, Id>, chosen': map<Id, Id>, p: Issuer)
    requires IssuerOk(t, chosen, p) && Extends(t, t') && Grows(chosen, chosen')
    ensures IssuerOk(t', chosen', p)
  {
    if p.pc.AtPersist? {
      CanonicalSurvives(t, t', chosen, chosen', p.assessmentId, p.pc.core);
    }
  }

  lemma IssuersSurvive(t: Tables, t': Tables, chosen: map<Id, Id>, chosen': map<Id, Id>, issuers: seq<Issuer>)
    requires IssuersOk(t, chosen, issuers) && Extends(t, t') && Grows(chosen, chosen')
    ensures IssuersOk(t', chosen', issuers)
  {
    forall i | 0 <= i < |issuers| ensures IssuerOk(t', chosen', issuers[i]) {
      IssuerSurvives(t, t', chosen, chosen', issuers[i]);
    }
  }

  /** A statement that leaves manifests and decisions alone keeps the invariant of every process. */
  lemma ProcessesSurvive(s: State, t': Tables)
    requires Inv(s) && TablesOk(t') && Extends(s.t, t')
    requires t'.manifests == s.t.manifests && t'.decisions == s.t.decisions
    ensures Inv(s.(t := t'))
  {
    WorkersSurvive(s.t, t', s.workers);
    FinishersSurvive(s.t, t', s.finishers);
    ChosenSurvives(s.t, t', s.chosen);
    DecisionsSurvive(s.t, t', s.chosen, s.chosen);
    IssuersSurvive(s.t, t', s.chosen, s.chosen, s.issuers);
  }

  // ---- workers ----------------------------------------------------------------------------

  lemma {:induction false} TakeKeeps(s: State, jobId: Id, workerId: Id, leaseSeconds: int)
    requires Inv(s)
    ensures Inv(TakeStep(s, jobId, workerId, leaseSeconds)) && Extends(s.t, TakeStep(s, jobId, workerId, leaseSeconds).t)
  {
    hide TablesOk;
    ExtendsItself(s.t);
    if Claimable(s.t, jobId) {
      var t' := Claim(s.t, jobId, workerId, leaseSeconds);
      var s' := TakeStep(s, jobId, workerId, leaseSeconds);
      ClaimKeeps(s.t, jobId, workerId, leaseSeconds);
      ProcessesSurvive(s, t');
      NewClaimIsDistinct(s, jobId, s'.workers[|s.workers|]);
      ClaimCounts(s.t, jobId);
      MoreWorkers(s.workers, s'.workers[|s.workers|], s.evaluations);
    }
  }

  lemma ClaimCounts(t: Tables, jobId: Id)
    requires TablesOk(t) && jobId in t.jobs
    ensures t.jobs[jobId].leaseGeneration == t.jobs[jobId].claimCount
  {
    assert LeaseOk(t.jobs[jobId]);
  }

  lemma NewClaimIsDistinct(s: State, jobId: Id, w: Worker)
    requires Inv(s) && jobId in s.t.jobs && w.jobId == jobId && w.leaseGeneration == s.t.jobs[jobId].leaseGeneration + 1
    ensures ClaimsDistinct(s.workers + [w])
  {
    var workers := s.workers + [w];
    forall i, k | 0 <= i < |workers| && 0 <= k < |workers| && SameClaim(workers[i], workers[k]) ensures i == k {
      assert i < |s.workers| ==> WorkerOk(s.t.jobs, s.t.cores, s.workers[i]);
      assert k < |s.workers| ==> WorkerOk(s.t.jobs, s.t.cores, s.workers[k]);
    }
  }

  lemma MoreWorkers(workers: seq<Worker>, w: Worker, evaluations: seq<Evaluation>)
    requires EvaluationsOk(workers, evaluations)
    ensures EvaluationsOk(workers + [w], evaluations)
  {
    forall i | 0 <= i < |evaluations| ensures EvaluationOk(workers + [w], evaluations[i]) {
      assert EvaluationOk(workers, evaluations[i]);
    }
  }

  lemma WorkerTablesKeep(t: Tables, w: Worker, op: WorkerOp)
    requires TablesOk(t) && Enabled(t, w, op) && !op.Finalize?
    ensures TablesOk(WorkerTables(t, w, op)) && Extends(t, WorkerTables(t, w, op))
  {
    hide TablesOk, Extends;
    var g := Some(w.leaseGeneration);
    match op
    case GiveUp => FailJobKeeps(t, w.jobId, w.workerId, None, g);
    case Start => StartJobKeeps(t, w.jobId, w.workerId, g);
    case Beat(leaseSeconds) => HeartbeatKeeps(t, w.jobId, w.workerId, g, leaseSeconds);
    case MarkAttempt(st) => SetAttemptKeeps(t, w.attemptId, st);
    case MarkAssessment(st) => SetAssessmentKeeps(t, w.assessmentId, st);
    case PersistCore(core) => UpsertCoreKeeps(t, core);
    case AttachLink(core) => InsertLinkKeeps(t, LinkKey(w.assessmentId, w.attemptId, core.validatorId), CoreDigest(core));
    case FailForGood => FailJobKeeps(t, w.jobId, w.workerId, None, g);
    case Reschedule(at) => FailJobKeeps(t, w.jobId, w.workerId, Some(at), g);
    case CancelHeld => CancelJobKeeps(t, w.jobId, Some(w.workerId), g);
    case _ => ExtendsItself(t);
  }

  /** Only the completion writes manifests; no worker writes decisions. */
  lemma WorkersWriteNoDecision(t: Tables, w: Worker, op: WorkerOp)
    ensures WorkerTables(t, w, op).decisions == t.decisions
    ensures !op.Finalize? ==> WorkerTables(t, w, op).manifests == t.manifests
  {
  }

  lemma WorkerNextOk(t: Tables, w: Worker, op: WorkerOp)
    requires TablesOk(t) && WorkerOk(t.jobs, t.cores, w) && Enabled(t, w, op)
    ensures WorkerOk(t.jobs, t.cores, WorkerNext(t, w, op)) && SameClaim(w, WorkerNext(t, w, op))
  {
    hide TablesOk;
    var w' := WorkerNext(t, w, op);
    if op.AttachLink? {
      forall e | e in w'.entries ensures e.coreHash in t.cores {
        assert e in w.entries || e == w'.entries[|w.entries|];
      }
    }
  }

  /** The bookkeeping of a worker step, whatever it did to the tables. */
  lemma {:induction false} BookkeepingKeeps(s: State, pid: nat, op: WorkerOp)
    requires Inv(s) && pid < |s.workers| && Enabled(s.t, s.workers[pid], op)
    ensures var s' := WorkStep(s, pid, op);
            WorkersOk(s.t, s'.workers) && ClaimsDistinct(s'.workers) && EvaluationsOk(s'.workers, s'.evaluations)
  {
    var s', w := WorkStep(s, pid, op), s.workers[pid];
    var w' := WorkerNext(s.t, w, op);
    assert WorkerOk(s.t.jobs, s.t.cores, w);
    WorkerNextOk(s.t, w, op);
    OneWorkerMoves(s.t, s.workers, pid, w');
    EvaluationsMove(s.workers, s.evaluations, pid, op, w', s.t);
  }

  lemma OneWorkerMoves(t: Tables, workers: seq<Worker>, pid: nat, w': Worker)
    requires WorkersOk(t, workers) && ClaimsDistinct(workers) && pid < |workers|
    requires WorkerOk(t.jobs, t.cores, w') && SameClaim(workers[pid], w')
    ensures WorkersOk(t, workers[pid := w']) && ClaimsDistinct(workers[pid := w'])
  {
    hide WorkerOk;
    var workers' := workers[pid := w'];
    forall i, k | 0 <= i < |workers'| && 0 <= k < |workers'| && SameClaim(workers'[i], workers'[k]) ensures i == k {
      assert SameClaim(workers[i], workers[k]);
    }
  }

  /** A process calls the evaluator once: afterwards it is never again about to. */
  lemma EvaluationsMove(workers: seq<Worker>, evaluations: seq<Evaluation>, pid: nat, op: WorkerOp, w': Worker, t: Tables)
    requires EvaluationsOk(workers, evaluations) && pid < |workers| && WorkerOk(t.jobs, t.cores, workers[pid])
    requires Enabled(t, workers[pid], op) && w' == WorkerNext(t, workers[pid], op)
    ensures EvaluationsOk(workers[pid := w'],
              if op.BeginEvaluation? then evaluations + [Evaluation(pid, w'.jobId, w'.leaseGeneration)] else evaluations)
  {
    forall i | 0 <= i < |evaluations| ensures EvaluationOk(workers[pid := w'], evaluations[i]) {
      assert EvaluationOk(workers, evaluations[i]);
    }
    if op.BeginEvaluation? {
      forall i | 0 <= i < |evaluations| ensures evaluations[i].pid != pid {
        assert EvaluationOk(workers, evaluations[i]);
      }
    }
  }

  lemma FinalizeKeepsTables(t: Tables, w: Worker, op: WorkerOp)
    requires TablesOk(t) && WorkerOk(t.jobs, t.cores, w) && Enabled(t, w, op) && op.Finalize?
    ensures TablesOk(WorkerTables(t, w, op)) && Extends(t, WorkerTables(t, w, op))
    ensures WorkerTables(t, w, op).decisions == t.decisions
  {
    var m := ManifestFor(w, t.assessments[w.assessmentId].authority, op.sorted);
    forall e | e in m.core.entries ensures e.coreHash in t.cores {
      assert e in multiset(op.sorted);
      assert e in w.entries;
    }
    CompleteAttemptKeeps(t, w.assessmentId, w.attemptId, w.jobId, w.workerId, Some(w.leaseGeneration), m, |w.entries|);
    WorkersWriteNoDecision(t, w, op);
    hide TablesOk, Extends, CompleteAttempt;
  }

  lemma FinalizeKeepsFinishers(s: State, pid: nat, op: WorkerOp)
    requires FinishersOk(s.t, s.finishers) && pid < |s.workers| && WorkerOk(s.t.jobs, s.t.cores, s.workers[pid])
    requires Enabled(s.t, s.workers[pid], op) && op.Finalize?
    requires JobsExtend(s.t.jobs, WorkStep(s, pid, op).t.jobs)
    ensures FinishersOk(WorkStep(s, pid, op).t, WorkStep(s, pid, op).finishers)
  {
    var s' := WorkStep(s, pid, op);
    forall key | key in s'.t.manifests
      ensures && key in s'.finishers && JobOf(s'.t.jobs, s'.finishers[key], key.attemptId)
              && s'.t.jobs[s'.finishers[key]].assessmentId == key.assessmentId
              && s'.t.jobs[s'.finishers[key]].status.JobComplete?
    {
      if key in s.t.manifests {
        assert JobExtends(s.t.jobs[s.finishers[key]], s'.t.jobs[s.finishers[key]]);
      }
    }
  }

  lemma {:induction false} FinalizeKeeps(s: State, pid: nat, op: WorkerOp)
    requires Inv(s) && pid < |s.workers| && Enabled(s.t, s.workers[pid], op) && op.Finalize?
    ensures Inv(WorkStep(s, pid, op)) && Extends(s.t, WorkStep(s, pid, op).t)
  {
    var s' := WorkStep(s, pid, op);
    assert WorkerOk(s.t.jobs, s.t.cores, s.workers[pid]);
    FinalizeKeepsTables(s.t, s.workers[pid], op);
    BookkeepingKeeps(s, pid, op);
    WorkersSurvive(s.t, s'.t, s'.workers);
    FinalizeKeepsFinishers(s, pid, op);
    ChosenSurvives(s.t, s'.t, s.chosen);
    DecisionsSurvive(s.t, s'.t, s.chosen, s.chosen);
    IssuersSurvive(s.t, s'.t, s.chosen, s.chosen, s.issuers);
  }

  lemma {:induction false} WorkKeeps(s: State, pid: nat, op: WorkerOp)
    requires Inv(s)
    ensures Inv(WorkStep(s, pid, op)) && Extends(s.t, WorkStep(s, pid, op).t)
  {
    ExtendsItself(s.t);
    if pid < |s.workers| && Enabled(s.t, s.workers[pid], op) {
      if op.Finalize? {
        FinalizeKeeps(s, pid, op);
      } else {
        assert WorkerOk(s.t.jobs, s.t.cores, s.workers[pid]);
        WorkerTablesKeep(s.t, s.workers[pid], op);
        WorkersWriteNoDecision(s.t, s.workers[pid], op);
        BookkeepingKeeps(s, pid, op);
        var s' := WorkStep(s, pid, op);
        assert s' == s.(t := s'.t, workers := s'.workers, evaluations := s'.evaluations);
        hide TablesOk, WorkStep;
        WorkersSurvive(s.t, s'.t, s'.workers);
        ProcessesSurvive(s, s'.t);
      }
    }
  }

  // ---- issuers ------------------------------------------------------------------------------

  /** Selected links only grow, so an issuer that finds one selected attempt finds the chosen one. */
  lemma SelectionSettles(s: State, p: Issuer)
    requires Inv(s) && p.pc.AtSelect? && |SelectedAttempts(s.t, p.assessmentId)| == 1
    ensures var x := Only(SelectedAttempts(s.t, p.assessmentId));
            && (p.assessmentId in s.chosen ==> s.chosen[p.assessmentId] == x)
            && x in SelectedAttempts(s.t, p.assessmentId)
  {
    hide TablesOk, WorkersOk, ClaimsDistinct, EvaluationsOk, FinishersOk, DecisionsOk, IssuersOk;
    var x := Only(SelectedAttempts(s.t, p.assessmentId));
    assert x in SelectedAttempts(s.t, p.assessmentId);
  }

  lemma GatherKeeps(t: Tables, m: ManifestCore, v: ValidatorId, evidence: map<ValidatorId, EvidenceCore>)
    requires CoresOk(t.cores) && Gathered(evidence, m)
    ensures Gathered(Gather(t, m, v, evidence), m)
  {
  }

  lemma {:induction false} LastEntryIsEntry(entries: seq<ManifestEntry>, v: ValidatorId)
    ensures LastEntry(entries, v).Some? ==> LastEntry(entries, v).value in entries
  {
    if entries != [] && entries[|entries| - 1].validatorId != v { LastEntryIsEntry(entries[..|entries| - 1], v); }
  }

  /** A read drops nothing, and finds every core the manifest names. */
  lemma GatherFinds(t: Tables, m: ManifestCore, v: ValidatorId, evidence: map<ValidatorId, EvidenceCore>)
    requires AllStored(m.entries, t.cores)
    ensures evidence.Keys <= Gather(t, m, v, evidence).Keys
    ensures ManifestEvidence(m, v).Some? ==> v in Gather(t, m, v, evidence)
  {
    LastEntryIsEntry(m.entries, v);
  }

  /** Whatever order the profile lists its validators in and whenever the cores were read,
      the core that is signed is the canonical one. */
  lemma WeighingIsCanonical(t: Tables, chosen: map<Id, Id>, p: Issuer)
    requires IssuerOk(t, chosen, p) && p.pc.AtEvidence?
    requires Weigh(p.pc.profile.validatorSet, p.pc.evidence, p.pc.authority).Reasons?
    ensures IsCanonical(t, chosen, p.assessmentId,
                        DecisionOf(p.pc.authority, p.pc.manifest.bodyHash, p.pc.contractJson,
                                   Weigh(p.pc.profile.validatorSet, p.pc.evidence, p.pc.authority).reasons))
  {
    WeighIsManifestReasons(p.pc.profile.validatorSet, p.pc.evidence, p.pc.authority, p.pc.manifest.core);
  }

  lemma CanonicalIsUnique(t: Tables, chosen: map<Id, Id>, assessmentId: Id, c: DecisionCore, d: DecisionCore)
    requires IsCanonical(t, chosen, assessmentId, c) && IsCanonical(t, chosen, assessmentId, d)
    ensures c == d
  {
    hide CanonicalDecision;
  }

  /** Whichever snapshots an issuer read, if they verify against the authority they name the
      same validators and the same policy. */
  lemma VerifiedSnapshotsAgree(a: Authority, p: Profile, q: Profile, x: Id, y: Id)
    requires AuthorityVerified(a, p, x) && AuthorityVerified(a, q, y)
    ensures p.id == q.id && p.version == q.version && multiset(p.validatorSet) == multiset(q.validatorSet) && x == y
  {
  }

  /** A signed core is the one already stored, if any: a second issuer cannot conflict with the first. */
  lemma SignaturesAgree(s: State, p: Issuer)
    requires DecisionsOk(s.t, s.chosen) && IssuerOk(s.t, s.chosen, p) && p.pc.AtPersist?
    ensures !PersistOutcomeOf(s.t, p.assessmentId, Sign(p, p.pc.core)).HashConflict?
  {
    hide IsCanonical;
    if p.assessmentId in s.t.decisions {
      CanonicalIsUnique(s.t, s.chosen, p.assessmentId, s.t.decisions[p.assessmentId].core, p.pc.core);
    }
  }

  lemma IssuerTablesKeep(t: Tables, p: Issuer)
    requires TablesOk(t)
    ensures TablesOk(IssuerTables(t, p)) && Extends(t, IssuerTables(t, p))
  {
    hide TablesOk, Extends;
    match p.pc
    case AtPersist(_, core) => PersistDecisionKeeps(t, p.assessmentId, Sign(p, core));
    case AtRefused(_) => SetAssessmentKeeps(t, p.assessmentId, Error);
    case _ => ExtendsItself(t);
  }

  /** What the decision transaction reports as stored is stored afterwards. */
  lemma StoredIsStored(t: Tables, assessmentId: Id, d: IssuedDecision)
    ensures PersistDecision(t, assessmentId, d).manifests == t.manifests && PersistDecision(t, assessmentId, d).jobs == t.jobs
    ensures var outcome := PersistOutcomeOf(t, assessmentId, d);
            var t' := PersistDecision(t, assessmentId, d);
            outcome.Stored? ==> assessmentId in t'.decisions && t'.decisions[assessmentId] == outcome.decision
  {
  }

  lemma RefusalWritesStatusOnly(t: Tables, p: Issuer)
    requires !p.pc.AtPersist?
    ensures IssuerTables(t, p).manifests == t.manifests && IssuerTables(t, p).jobs == t.jobs
    ensures IssuerTables(t, p).decisions == t.decisions
  {
    if p.pc.AtRefused? {
      assert IssuerTables(t, p) == SetAssessment(t, p.assessmentId, Error);
    } else {
      assert IssuerTables(t, p) == t;
    }
    hide IssuerTables;
  }

  lemma IssuersWriteNoManifest(t: Tables, p: Issuer)
    ensures IssuerTables(t, p).manifests == t.manifests && IssuerTables(t, p).jobs == t.jobs
    ensures !p.pc.AtPersist? ==> IssuerTables(t, p).decisions == t.decisions
  {
    hide IssuerTables, PersistDecision;
    if p.pc.AtPersist? {
      StoredIsStored(t, p.assessmentId, Sign(p, p.pc.core));
      PersistStep(t, p);
    } else {
      RefusalWritesStatusOnly(t, p);
    }
  }

  lemma ReadOk(s: State, p: Issuer)
    requires Inv(s) && IssuerOk(s.t, s.chosen, p)
    requires !p.pc.AtSelect? && !p.pc.AtManifest? && !p.pc.AtEvidence? && !p.pc.AtPersist?
    ensures IssuerOk(s.t, s.chosen, p.(pc := IssuerNext(s.t, p)))
  {
    hide Inv;
  }

  lemma SelectOk(s: State, p: Issuer)
    requires Inv(s) && p.pc.AtSelect?
    ensures IssuerOk(s.t, Chosen(s, p), p.(pc := IssuerNext(s.t, p)))
  {
    hide TablesOk, WorkersOk, ClaimsDistinct, EvaluationsOk, FinishersOk, DecisionsOk, IssuersOk;
    if |SelectedAttempts(s.t, p.assessmentId)| == 1 { SelectionSettles(s, p); }
  }

  lemma ManifestReadOk(s: State, p: Issuer)
    requires ManifestsBound(s.t.manifests, s.t.assessments) && IssuerOk(s.t, s.chosen, p) && p.pc.AtManifest?
    ensures IssuerOk(s.t, s.chosen, p.(pc := IssuerNext(s.t, p)))
  {
    var key := ManifestKey(p.assessmentId, p.pc.attemptId);
    assert key in s.t.manifests ==> Bound(key, s.t.manifests[key], s.t.assessments);
  }

  lemma EvidenceReadOk(s: State, p: Issuer)
    requires CoresOk(s.t.cores) && ManifestsStored(s.t.manifests, s.t.cores) && IssuerOk(s.t, s.chosen, p) && p.pc.AtEvidence?
    ensures IssuerOk(s.t, s.chosen, p.(pc := IssuerNext(s.t, p)))
  {
    hide LastEntry, CoresOk;
    if p.pc.next < |p.pc.profile.validatorSet| {
      hide ManifestEvidence, Gather, Gathered;
      GatherKeeps(s.t, p.pc.manifest.core, p.pc.profile.validatorSet[p.pc.next].id, p.pc.evidence);
      GatherFinds(s.t, p.pc.manifest.core, p.pc.profile.validatorSet[p.pc.next].id, p.pc.evidence);
    } else if Weigh(p.pc.profile.validatorSet, p.pc.evidence, p.pc.authority).Reasons? {
      WeighingIsCanonical(s.t, s.chosen, p);
      hide IsCanonical, Gathered;
    }
  }

  lemma PersistStep(t: Tables, p: Issuer)
    requires p.pc.AtPersist?
    ensures IssuerNext(t, p) == PersistNext(t, p, p.pc.core)
    ensures IssuerTables(t, p) == PersistDecision(t, p.assessmentId, Sign(p, p.pc.core))
  {
    hide PersistNext, PersistDecision;
  }

  lemma PersistOk(s: State, p: Issuer)
    requires DecisionsOk(s.t, s.chosen) && IssuerOk(s.t, s.chosen, p) && p.pc.AtPersist?
    ensures IssuerOk(IssuerTables(s.t, p), s.chosen, p.(pc := IssuerNext(s.t, p)))
  {
    hide DecisionsOk, IsCanonical, PersistDecision, PersistOutcomeOf, IssuerNext, IssuerTables;
    SignaturesAgree(s, p);
    StoredIsStored(s.t, p.assessmentId, Sign(p, p.pc.core));
    PersistStep(s.t, p);
  }

  lemma IssuerNextOk(s: State, p: Issuer)
    requires Inv(s) && IssuerOk(s.t, s.chosen, p)
    requires Extends(s.t, IssuerTables(s.t, p)) && Grows(s.chosen, Chosen(s, p))
    ensures IssuerOk(IssuerTables(s.t, p), Chosen(s, p), p.(pc := IssuerNext(s.t, p)))
  {
    var q := p.(pc := IssuerNext(s.t, p));
    match p.pc {
      case AtSelect => SelectOk(s, p);
      case AtManifest(_, _, _, _) => ManifestReadOk(s, p);
      case AtEvidence(_, _, _, _, _, _, _) => EvidenceReadOk(s, p);
      case AtPersist(_, _) => PersistOk(s, p);
      case _ => ReadOk(s, p);
    }
    hide Inv, IssuerOk, IssuerNext, Extends;
    if !p.pc.AtSelect? && !p.pc.AtPersist? {
      IssuerSurvives(s.t, IssuerTables(s.t, p), s.chosen, Chosen(s, p), q);
    }
  }

  lemma ChosenGrows(s: State, p: Issuer)
    requires Inv(s)
    ensures Grows(s.chosen, Chosen(s, p)) && ChosenOk(s.t, Chosen(s, p))
  {
    hide TablesOk, WorkersOk, ClaimsDistinct, EvaluationsOk, FinishersOk, DecisionsOk, IssuersOk;
    if p.pc.AtSelect? && |SelectedAttempts(s.t, p.assessmentId)| == 1 { SelectionSettles(s, p); }
  }

  /** The decision transaction inserts at most its own row, and never a hash that is taken. */
  lemma PersistInserts(t: Tables, assessmentId: Id, d: IssuedDecision)
    requires HashesDistinct(t.decisions)
    ensures var t' := PersistDecision(t, assessmentId, d);
            && HashesDistinct(t'.decisions)
            && t'.manifests == t.manifests && t'.contracts == t.contracts
            && (t'.decisions == t.decisions || t'.decisions == t.decisions[assessmentId := d])
  {
  }

  lemma PersistKeepsDecisions(s: State, p: Issuer)
    requires DecisionsOk(s.t, s.chosen) && p.pc.AtPersist? && IsCanonical(s.t, s.chosen, p.assessmentId, p.pc.core)
    requires AssessmentsExtend(s.t.assessments, IssuerTables(s.t, p).assessments)
    ensures DecisionsOk(IssuerTables(s.t, p), s.chosen)
  {
    hide IsCanonical, PersistDecision, PersistOutcomeOf, IssuerTables, IssuerNext, HashesDistinct;
    PersistStep(s.t, p);
    PersistInserts(s.t, p.assessmentId, Sign(p, p.pc.core));
    var t' := IssuerTables(s.t, p);
    forall a | a in t'.decisions
      ensures IsCanonical(t', s.chosen, a, t'.decisions[a].core) && t'.decisions[a].decisionHash == DecisionDigest(t'.decisions[a].core)
    {
      CanonicalSurvives(s.t, t', s.chosen, s.chosen, a, t'.decisions[a].core);
    }
  }

  /** The tables after an issuer's step, whatever it read or wrote. */
  lemma IssueKeepsDecisions(s: State, p: Issuer)
    requires DecisionsOk(s.t, s.chosen) && IssuerOk(s.t, s.chosen, p)
    requires Extends(s.t, IssuerTables(s.t, p)) && Grows(s.chosen, Chosen(s, p))
    ensures DecisionsOk(IssuerTables(s.t, p), Chosen(s, p))
  {
    IssuersWriteNoManifest(s.t, p);
    assert p.pc.AtPersist? ==> IsCanonical(s.t, s.chosen, p.assessmentId, p.pc.core);
    hide DecisionsOk, IssuerOk, IssuerNext, IssuerTables, IsCanonical;
    if p.pc.AtPersist? {
      PersistKeepsDecisions(s, p);
    } else {
      DecisionsSurvive(s.t, IssuerTables(s.t, p), s.chosen, Chosen(s, p));
    }
  }

  lemma IssuersMove(t: Tables, chosen: map<Id, Id>, issuers: seq<Issuer>, pid: nat, q: Issuer)
    requires IssuersOk(t, chosen, issuers) && pid < |issuers| && IssuerOk(t, chosen, q)
    ensures IssuersOk(t, chosen, issuers[pid := q])
  {
    hide IssuerOk;
  }

  lemma {:induction false} IssueKeeps(s: State, pid: nat)
    requires Inv(s)
    ensures Inv(IssueStep(s, pid)) && Extends(s.t, IssueStep(s, pid).t)
  {
    ExtendsItself(s.t);
    if pid < |s.issuers| {
      var p, t', chosen' := s.issuers[pid], IssuerTables(s.t, s.issuers[pid]), Chosen(s, s.issuers[pid]);
      var q := p.(pc := IssuerNext(s.t, p));
      assert IssueStep(s, pid) == s.(t := t', issuers := s.issuers[pid := q], chosen := chosen');
      assert IssuerOk(s.t, s.chosen, p);
      hide TablesOk, IssuerOk, IssuerNext, IssuerTables, IsCanonical, IssueStep, Chosen;
      hide WorkersOk, ClaimsDistinct, EvaluationsOk, FinishersOk, ChosenOk, DecisionsOk, IssuersOk;
      IssuerTablesKeep(s.t, p);
      IssuersWriteNoManifest(s.t, p);
      ChosenGrows(s, p);
      IssuerNextOk(s, p);
      WorkersSurvive(s.t, t', s.workers);
      FinishersSurvive(s.t, t', s.finishers);
      ChosenSurvives(s.t, t', chosen');
      IssuersSurvive(s.t, t', s.chosen, chosen', s.issuers);
      IssuersMove(t', chosen', s.issuers, pid, q);
      IssueKeepsDecisions(s, p);
    }
  }

  // ---- every event, every run -----------------------------------------------------------------

  lemma {:induction false} EventKeeps(s: State, e: Event)
    requires Inv(s)
    ensures Inv(Apply(s, e)) && Extends(s.t, Apply(s, e).t)
  {
    hide Inv, Extends, TakeStep, WorkStep, IssueStep;
    match e
    case TakeJob(jobId, workerId, leaseSeconds) => TakeKeeps(s, jobId, workerId, leaseSeconds);
    case Work(pid, op) => WorkKeeps(s, pid, op);
    case Issue(pid) => IssueKeeps(s, pid);
    case NewIssuer(id, name) => NewIssuerKeeps(s, id, name);
    case _ => TableEventKeeps(s, e);
  }

  lemma NewIssuerKeeps(s: State, assessmentId: Id, name: Id)
    requires Inv(s)
    ensures Inv(s.(issuers := s.issuers + [Issuer(assessmentId, name, AtStart)])) && Extends(s.t, s.t)
  {
    hide TablesOk, WorkersOk, ClaimsDistinct, EvaluationsOk, FinishersOk, ChosenOk, DecisionsOk;
    ExtendsItself(s.t);
  }

  /** The events that belong to no process. */
  lemma TableEventKeeps(s: State, e: Event)
    requires Inv(s) && !e.TakeJob? && !e.Work? && !e.Issue? && !e.NewIssuer?
    ensures Inv(Apply(s, e)) && Extends(s.t, Apply(s, e).t)
  {
    TableEventTablesKeep(s, e);
    TableEventWritesNoManifest(s, e);
    var t' := Apply(s, e).t;
    assert Apply(s, e) == s.(t := t');
    hide Apply;
    ProcessesSurvive(s, t');
  }

  lemma TableEventTablesKeep(s: State, e: Event)
    requires TablesOk(s.t) && !e.TakeJob? && !e.Work? && !e.Issue? && !e.NewIssuer?
    ensures TablesOk(Apply(s, e).t) && Extends(s.t, Apply(s, e).t)
  {
    match e {
      case NewAssessment(id, authority) => CreateAssessmentKeeps(s.t, id, authority);
      case NewAttempt(id, attemptId, jobId, availableAt) => CreateAttemptAndJobKeeps(s.t, id, attemptId, jobId, availableAt);
      case CancelUnheld(jobId) => CancelJobKeeps(s.t, jobId, None, None);
      case _ => SnapshotEventKeeps(s, e);
    }
    hide TablesOk, Extends;
  }

  lemma TableEventWritesNoManifest(s: State, e: Event)
    requires !e.TakeJob? && !e.Work? && !e.Issue? && !e.NewIssuer?
    ensures Apply(s, e).t.manifests == s.t.manifests && Apply(s, e).t.decisions == s.t.decisions
  {
    hide TakeStep, WorkStep, IssueStep, HoldsLease, CanCancel, DigestOfProfile;
  }

  lemma SnapshotEventKeeps(s: State, e: Event)
    requires TablesOk(s.t) && (e.Tick? || e.PutProfile? || e.PutPolicy? || e.PutContract?)
    ensures TablesOk(Apply(s, e).t) && Extends(s.t, Apply(s, e).t)
  {
    ExtendsItself(s.t);
  }

  lemma {:induction false} RunKeeps(s: State, events: seq<Event>)
    requires Inv(s)
    ensures Inv(Run(s, events)) && Extends(s.t, Run(s, events).t)
    decreases |events|
  {
    if events == [] {
      ExtendsItself(s.t);
    } else {
      EventKeeps(s, events[0]);
      RunKeeps(Apply(s, events[0]), events[1..]);
      ExtendsIsTransitive(s.t, Apply(s, events[0]).t, Run(s, events).t);
    }
  }

  lemma StartIsFine()
    ensures Inv(START)
  {
  }
}
