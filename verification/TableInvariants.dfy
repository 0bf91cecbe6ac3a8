/** What every statement on the governance tables keeps, and what it can only add to. Each
    conjunct names the tables it reads, so a statement that leaves them alone keeps it. */
module TableInvariants {
  import opened Wrappers
  import opened EvidenceRecords
  import opened GovernanceTables

  // ---- the invariant -----------------------------------------------------------

  /** The generation counts the claims, and there is a lease exactly while the job is held. */
  ghost predicate LeaseOk(job: Job) {
    && job.leaseGeneration == job.claimCount
    && (Held(job.status) <==> job.leaseExpiresAt.Some?)
    && (Held(job.status) ==> job.workerId.Some?)
  }

  ghost predicate LeasesOk(jobs: map<Id, Job>) {
    forall j :: j in jobs ==> LeaseOk(jobs[j])
  }

  ghost predicate SameAttempt(jobs: map<Id, Job>, j: Id, k: Id) {
    j in jobs && k in jobs && jobs[j].attemptId == jobs[k].attemptId
  }

  ghost predicate OneJobPerAttempt(jobs: map<Id, Job>) {
    forall j, k :: SameAttempt(jobs, j, k) ==> j == k
  }

  ghost predicate KnownAttempts(jobs: map<Id, Job>, attempts: map<Id, Attempt>) {
    forall j :: j in jobs ==>
      jobs[j].attemptId in attempts && attempts[jobs[j].attemptId].assessmentId == jobs[j].assessmentId
  }

  ghost predicate KnownAssessments(attempts: map<Id, Attempt>, assessments: map<Id, Assessment>) {
    forall a :: a in attempts ==> attempts[a].assessmentId in assessments
  }

  ghost predicate CoresOk(cores: map<Digest, EvidenceCore>) {
    forall h :: h in cores ==> h == CoreDigest(cores[h])
  }

  /** A manifest body bound to its row and to the authority of its assessment. */
  ghost predicate Bound(key: ManifestKey, m: Manifest, assessments: map<Id, Assessment>) {
    && key.assessmentId in assessments
    && var a := assessments[key.assessmentId].authority;
    && m.assessmentId == key.assessmentId && m.attemptId == key.attemptId
    && m.bodyHash == m.rowHash == ManifestDigest(m.core)
    && m.core.subjectDigest == a.subjectDigest
    && m.core.profileDigest == a.profileDigest
    && m.core.executionContractHash == a.executionContractHash
  }

  ghost predicate ManifestsBound(manifests: map<ManifestKey, Manifest>, assessments: map<Id, Assessment>) {
    forall key :: key in manifests ==> Bound(key, manifests[key], assessments)
  }

  ghost predicate AllStored(entries: seq<ManifestEntry>, cores: map<Digest, EvidenceCore>) {
    forall e :: e in entries ==> e.coreHash in cores
  }

  ghost predicate ManifestsStored(manifests: map<ManifestKey, Manifest>, cores: map<Digest, EvidenceCore>) {
    forall key :: key in manifests ==> AllStored(manifests[key].core.entries, cores)
  }

  ghost predicate JobOf(jobs: map<Id, Job>, j: Id, attemptId: Id) {
    j in jobs && jobs[j].attemptId == attemptId
  }

  ghost predicate ManifestsFinished(manifests: map<ManifestKey, Manifest>, attempts: map<Id, Attempt>, jobs: map<Id, Job>) {
    forall key :: key in manifests ==>
      && key.attemptId in attempts
      && (forall j :: JobOf(jobs, j, key.attemptId) ==> jobs[j].status.JobComplete?)
  }

  ghost predicate SelectionBacked(links: map<LinkKey, Link>, manifests: map<ManifestKey, Manifest>) {
    forall k :: k in links && links[k].selected ==> ManifestKey(k.assessmentId, k.attemptId) in manifests
  }

  ghost predicate TablesOk(t: Tables) {
    && LeasesOk(t.jobs)
    && OneJobPerAttempt(t.jobs)
    && KnownAttempts(t.jobs, t.attempts)
    && KnownAssessments(t.attempts, t.assessments)
    && CoresOk(t.cores)
    && ManifestsBound(t.manifests, t.assessments)
    && ManifestsStored(t.manifests, t.cores)
    && ManifestsFinished(t.manifests, t.attempts, t.jobs)
    && SelectionBacked(t.links, t.manifests)
  }

  // ---- what a later state still knows -------------------------------------------

  ghost predicate JobExtends(job: Job, job': Job) {
    && job.attemptId == job'.attemptId && job.assessmentId == job'.assessmentId
    && job.leaseGeneration <= job'.leaseGeneration
    && (Terminal(job.status) ==> job' == job)
  }

  ghost predicate JobsExtend(jobs: map<Id, Job>, jobs': map<Id, Job>) {
    forall j :: j in jobs ==> j in jobs' && JobExtends(jobs[j], jobs'[j])
  }

  ghost predicate AttemptsExtend(attempts: map<Id, Attempt>, attempts': map<Id, Attempt>) {
    forall a :: a in attempts ==> a in attempts' && attempts'[a].assessmentId == attempts[a].assessmentId
  }

  ghost predicate AssessmentsExtend(assessments: map<Id, Assessment>, assessments': map<Id, Assessment>) {
    forall a :: a in assessments ==> a in assessments' && assessments'[a].authority == assessments[a].authority
  }

  ghost predicate LinksExtend(links: map<LinkKey, Link>, links': map<LinkKey, Link>) {
    forall k :: k in links ==> k in links' && (links[k].selected ==> links'[k].selected)
  }

  ghost predicate Grows<K(!new), V(!new)>(m: map<K, V>, m': map<K, V>) {
    forall k :: k in m ==> k in m' && m'[k] == m[k]
  }

  ghost predicate Extends(t: Tables, t': Tables) {
    && t.now <= t'.now
    && JobsExtend(t.jobs, t'.jobs)
    && AttemptsExtend(t.attempts, t'.attempts)
    && AssessmentsExtend(t.assessments, t'.assessments)
    && LinksExtend(t.links, t'.links)
    && Grows(t.cores, t'.cores)
    && Grows(t.manifests, t'.manifests)
    && Grows(t.decisions, t'.decisions)
    && Grows(t.contracts, t'.contracts)
  }

  lemma ExtendsItself(t: Tables)
    ensures Extends(t, t)
  {
  }

  lemma ExtendsIsTransitive(a: Tables, b: Tables, c: Tables)
    requires Extends(a, b) && Extends(b, c)
    ensures Extends(a, c)
  {
    assert JobsExtend(a.jobs, c.jobs);
    assert LinksExtend(a.links, c.links);
  }

  lemma SelectionOnlyGrows(t: Tables, t': Tables, assessmentId: Id)
    requires LinksExtend(t.links, t'.links)
    ensures SelectedAttempts(t, assessmentId) <= SelectedAttempts(t', assessmentId)
  {
    forall x | x in SelectedAttempts(t, assessmentId) ensures x in SelectedAttempts(t', assessmentId) {
      var k :| k in t.links && k.assessmentId == assessmentId && t.links[k].selected && k.attemptId == x;
      assert k in t'.links && t'.links[k].selected;
    }
  }

  // ---- one job changes ------------------------------------------------------------

  /** The shape of every statement on a single job. */
  ghost predicate JobMove(jobs: map<Id, Job>, jobId: Id, job': Job) {
    && jobId in jobs
    && !Terminal(jobs[jobId].status)
    && JobExtends(jobs[jobId], job')
    && LeaseOk(job')
  }

  lemma JobMoveKeepsJobs(t: Tables, jobId: Id, job': Job)
    requires TablesOk(t) && JobMove(t.jobs, jobId, job')
    ensures var jobs' := t.jobs[jobId := job'];
            LeasesOk(jobs') && OneJobPerAttempt(jobs') && KnownAttempts(jobs', t.attempts) && JobsExtend(t.jobs, jobs')
  {
    var jobs' := t.jobs[jobId := job'];
    forall j, k | SameAttempt(jobs', j, k) ensures j == k {
      assert SameAttempt(t.jobs, j, k);
    }
  }

  lemma JobMoveKeeps(t: Tables, jobId: Id, job': Job)
    requires TablesOk(t) && JobMove(t.jobs, jobId, job')
    ensures TablesOk(t.(jobs := t.jobs[jobId := job'])) && Extends(t, t.(jobs := t.jobs[jobId := job']))
  {
    ExtendsItself(t);
    JobMoveKeepsJobs(t, jobId, job');
    var jobs' := t.jobs[jobId := job'];
    forall key, j | key in t.manifests && JobOf(jobs', j, key.attemptId) ensures jobs'[j].status.JobComplete? {
      assert JobOf(t.jobs, j, key.attemptId);
    }
  }

  lemma ClaimKeeps(t: Tables, jobId: Id, workerId: Id, leaseSeconds: int)
    requires TablesOk(t)
    ensures TablesOk(Claim(t, jobId, workerId, leaseSeconds)) && Extends(t, Claim(t, jobId, workerId, leaseSeconds))
  {
    ExtendsItself(t);
    if Claimable(t, jobId) {
      JobMoveKeeps(t, jobId, Claim(t, jobId, workerId, leaseSeconds).jobs[jobId]);
    }
  }

  lemma HeartbeatKeeps(t: Tables, jobId: Id, workerId: Id, generation: Option<nat>, leaseSeconds: int)
    requires TablesOk(t)
    ensures TablesOk(Heartbeat(t, jobId, workerId, generation, leaseSeconds))
    ensures Extends(t, Heartbeat(t, jobId, workerId, generation, leaseSeconds))
  {
    ExtendsItself(t);
    if HoldsLease(t, jobId, workerId, generation) {
      JobMoveKeeps(t, jobId, Heartbeat(t, jobId, workerId, generation, leaseSeconds).jobs[jobId]);
    }
  }

  lemma StartJobKeeps(t: Tables, jobId: Id, workerId: Id, generation: Option<nat>)
    requires TablesOk(t)
    ensures TablesOk(StartJob(t, jobId, workerId, generation)) && Extends(t, StartJob(t, jobId, workerId, generation))
  {
    ExtendsItself(t);
    if CanStart(t, jobId, workerId, generation) {
      JobMoveKeeps(t, jobId, StartJob(t, jobId, workerId, generation).jobs[jobId]);
    }
  }

  lemma FailJobKeeps(t: Tables, jobId: Id, workerId: Id, rescheduleAt: Option<int>, generation: Option<nat>)
    requires TablesOk(t)
    ensures TablesOk(FailJob(t, jobId, workerId, rescheduleAt, generation))
    ensures Extends(t, FailJob(t, jobId, workerId, rescheduleAt, generation))
  {
    ExtendsItself(t);
    if HoldsLease(t, jobId, workerId, generation) {
      JobMoveKeeps(t, jobId, FailJob(t, jobId, workerId, rescheduleAt, generation).jobs[jobId]);
    }
  }

  lemma CancelJobKeeps(t: Tables, jobId: Id, workerId: Option<Id>, generation: Option<nat>)
    requires TablesOk(t)
    ensures TablesOk(CancelJob(t, jobId, workerId, generation)) && Extends(t, CancelJob(t, jobId, workerId, generation))
  {
    ExtendsItself(t);
    if CanCancel(t, jobId, workerId, generation) {
      JobMoveKeeps(t, jobId, CancelJob(t, jobId, workerId, generation).jobs[jobId]);
    }
  }

  // ---- the other tables -------------------------------------------------------------

  lemma BindingsSurvive(manifests: map<ManifestKey, Manifest>, assessments: map<Id, Assessment>,
                        assessments': map<Id, Assessment>)
    requires ManifestsBound(manifests, assessments) && AssessmentsExtend(assessments, assessments')
    ensures ManifestsBound(manifests, assessments')
  {
    forall key | key in manifests ensures Bound(key, manifests[key], assessments') {
      assert Bound(key, manifests[key], assessments);
    }
  }

  lemma AssessmentsMayGrow(t: Tables, t': Tables)
    requires TablesOk(t) && AssessmentsExtend(t.assessments, t'.assessments)
    requires t' == t.(assessments := t'.assessments, decisions := t'.decisions)
    ensures TablesOk(t')
  {
    BindingsSurvive(t.manifests, t.assessments, t'.assessments);
    assert KnownAssessments(t.attempts, t'.assessments);
  }

  lemma SetAssessmentKeeps(t: Tables, assessmentId: Id, status: AssessmentStatus)
    requires TablesOk(t)
    ensures TablesOk(SetAssessment(t, assessmentId, status)) && Extends(t, SetAssessment(t, assessmentId, status))
  {
    ExtendsItself(t);
    AssessmentsMayGrow(t, SetAssessment(t, assessmentId, status));
  }

  lemma CreateAssessmentExtends(t: Tables, assessmentId: Id, authority: Authority)
    ensures Extends(t, CreateAssessment(t, assessmentId, authority))
  {
    ExtendsItself(t);
  }

  lemma CreateAssessmentKeeps(t: Tables, assessmentId: Id, authority: Authority)
    requires TablesOk(t)
    ensures TablesOk(CreateAssessment(t, assessmentId, authority)) && Extends(t, CreateAssessment(t, assessmentId, authority))
  {
    CreateAssessmentExtends(t, assessmentId, authority);
    AssessmentsMayGrow(t, CreateAssessment(t, assessmentId, authority));
  }

  lemma PersistDecisionExtends(t: Tables, assessmentId: Id, d: IssuedDecision)
    ensures Extends(t, PersistDecision(t, assessmentId, d))
  {
    ExtendsItself(t);
  }

  lemma PersistDecisionKeeps(t: Tables, assessmentId: Id, d: IssuedDecision)
    requires TablesOk(t)
    ensures TablesOk(PersistDecision(t, assessmentId, d)) && Extends(t, PersistDecision(t, assessmentId, d))
  {
    PersistDecisionExtends(t, assessmentId, d);
    AssessmentsMayGrow(t, PersistDecision(t, assessmentId, d));
  }

  lemma AttemptsSurvive(t: Tables, attempts': map<Id, Attempt>)
    requires TablesOk(t) && AttemptsExtend(t.attempts, attempts')
    ensures KnownAttempts(t.jobs, attempts') && ManifestsFinished(t.manifests, attempts', t.jobs)
  {
  }

  lemma SetAttemptExtends(t: Tables, attemptId: Id, status: AttemptStatus)
    ensures Extends(t, SetAttempt(t, attemptId, status))
  {
    ExtendsItself(t);
  }

  lemma SetAttemptKeeps(t: Tables, attemptId: Id, status: AttemptStatus)
    requires TablesOk(t)
    ensures TablesOk(SetAttempt(t, attemptId, status)) && Extends(t, SetAttempt(t, attemptId, status))
  {
    SetAttemptExtends(t, attemptId, status);
    AttemptsSurvive(t, SetAttempt(t, attemptId, status).attempts);
  }

  lemma CoresSurvive(manifests: map<ManifestKey, Manifest>, cores: map<Digest, EvidenceCore>, cores': map<Digest, EvidenceCore>)
    requires ManifestsStored(manifests, cores) && Grows(cores, cores')
    ensures ManifestsStored(manifests, cores')
  {
    forall key | key in manifests ensures AllStored(manifests[key].core.entries, cores') {
      assert AllStored(manifests[key].core.entries, cores);
    }
  }

  lemma UpsertCoreExtends(t: Tables, core: EvidenceCore)
    ensures Extends(t, UpsertCore(t, core))
  {
    ExtendsItself(t);
  }

  lemma NewCoreIsFiled(cores: map<Digest, EvidenceCore>, core: EvidenceCore)
    requires CoresOk(cores)
    ensures CoresOk(cores[CoreDigest(core) := core])
    ensures CoreDigest(core) !in cores ==> Grows(cores, cores[CoreDigest(core) := core])
  {
  }

  lemma UpsertCoreKeeps(t: Tables, core: EvidenceCore)
    requires TablesOk(t)
    ensures TablesOk(UpsertCore(t, core)) && Extends(t, UpsertCore(t, core))
    ensures CoreDigest(core) in UpsertCore(t, core).cores
  {
    UpsertCoreExtends(t, core);
    NewCoreIsFiled(t.cores, core);
    CoresSurvive(t.manifests, t.cores, UpsertCore(t, core).cores);
  }

  lemma InsertLinkKeeps(t: Tables, key: LinkKey, coreHash: Digest)
    requires TablesOk(t)
    ensures TablesOk(InsertLink(t, key, coreHash)) && Extends(t, InsertLink(t, key, coreHash))
  {
    ExtendsItself(t);
  }

  // ---- creation and completion -------------------------------------------------------

  lemma NewJobKeepsJobs(t: Tables, assessmentId: Id, attemptId: Id, jobId: Id, availableAt: int)
    requires TablesOk(t) && assessmentId in t.assessments && attemptId !in t.attempts && jobId !in t.jobs
    ensures var t' := CreateAttemptAndJob(t, assessmentId, attemptId, jobId, availableAt);
            && LeasesOk(t'.jobs) && OneJobPerAttempt(t'.jobs)
            && KnownAttempts(t'.jobs, t'.attempts) && KnownAssessments(t'.attempts, t'.assessments)
  {
    var t' := CreateAttemptAndJob(t, assessmentId, attemptId, jobId, availableAt);
    forall j, k | SameAttempt(t'.jobs, j, k) ensures j == k {
      assert j in t.jobs && k in t.jobs ==> SameAttempt(t.jobs, j, k);
    }
  }

  lemma NewJobKeepsManifests(t: Tables, assessmentId: Id, attemptId: Id, jobId: Id, availableAt: int)
    requires TablesOk(t) && assessmentId in t.assessments && attemptId !in t.attempts && jobId !in t.jobs
    ensures var t' := CreateAttemptAndJob(t, assessmentId, attemptId, jobId, availableAt);
            ManifestsFinished(t'.manifests, t'.attempts, t'.jobs)
  {
    var t' := CreateAttemptAndJob(t, assessmentId, attemptId, jobId, availableAt);
    forall key, j | key in t'.manifests && JobOf(t'.jobs, j, key.attemptId) ensures t'.jobs[j].status.JobComplete? {
      assert j in t.jobs ==> JobOf(t.jobs, j, key.attemptId);
    }
  }

  lemma NewJobExtends(t: Tables, assessmentId: Id, attemptId: Id, jobId: Id, availableAt: int)
    ensures Extends(t, CreateAttemptAndJob(t, assessmentId, attemptId, jobId, availableAt))
  {
    ExtendsItself(t);
  }

  lemma CreateAttemptAndJobKeeps(t: Tables, assessmentId: Id, attemptId: Id, jobId: Id, availableAt: int)
    requires TablesOk(t)
    ensures TablesOk(CreateAttemptAndJob(t, assessmentId, attemptId, jobId, availableAt))
    ensures Extends(t, CreateAttemptAndJob(t, assessmentId, attemptId, jobId, availableAt))
  {
    ExtendsItself(t);
    if assessmentId in t.assessments && attemptId !in t.attempts && jobId !in t.jobs {
      NewJobKeepsJobs(t, assessmentId, attemptId, jobId, availableAt);
      NewJobKeepsManifests(t, assessmentId, attemptId, jobId, availableAt);
      NewJobExtends(t, assessmentId, attemptId, jobId, availableAt);
    }
  }

  /** The completion is the only statement that writes a manifest, and it cannot write one twice. */
  lemma CompletionWritesOnce(t: Tables, assessmentId: Id, attemptId: Id, jobId: Id, workerId: Id,
                             generation: Option<nat>, n: nat)
    requires TablesOk(t) && JobOf(t.jobs, jobId, attemptId)
    requires CanComplete(t, assessmentId, attemptId, jobId, workerId, generation, n)
    ensures ManifestKey(assessmentId, attemptId) !in t.manifests
  {
  }

  lemma CompletionExtends(t: Tables, assessmentId: Id, attemptId: Id, jobId: Id, workerId: Id, generation: Option<nat>,
                          m: Manifest, n: nat)
    requires CanComplete(t, assessmentId, attemptId, jobId, workerId, generation, n)
    requires ManifestKey(assessmentId, attemptId) !in t.manifests
    ensures Extends(t, CompleteAttempt(t, assessmentId, attemptId, jobId, workerId, generation, m, n))
  {
    ExtendsItself(t);
  }

  lemma CompletionKeepsManifests(t: Tables, assessmentId: Id, attemptId: Id, jobId: Id, workerId: Id, generation: Option<nat>,
                                 m: Manifest, n: nat)
    requires TablesOk(t) && CanComplete(t, assessmentId, attemptId, jobId, workerId, generation, n)
    requires Bound(ManifestKey(assessmentId, attemptId), m, t.assessments) && AllStored(m.core.entries, t.cores)
    ensures var t' := CompleteAttempt(t, assessmentId, attemptId, jobId, workerId, generation, m, n);
            ManifestsBound(t'.manifests, t'.assessments) && ManifestsStored(t'.manifests, t'.cores)
  {
    var t' := CompleteAttempt(t, assessmentId, attemptId, jobId, workerId, generation, m, n);
    BindingsSurvive(t.manifests, t.assessments, t'.assessments);
  }

  lemma CompletionFinishes(t: Tables, assessmentId: Id, attemptId: Id, jobId: Id, workerId: Id, generation: Option<nat>,
                           m: Manifest, n: nat)
    requires TablesOk(t) && JobOf(t.jobs, jobId, attemptId)
    requires CanComplete(t, assessmentId, attemptId, jobId, workerId, generation, n)
    ensures var t' := CompleteAttempt(t, assessmentId, attemptId, jobId, workerId, generation, m, n);
            && ManifestsFinished(t'.manifests, t'.attempts, t'.jobs) && SelectionBacked(t'.links, t'.manifests)
            && KnownAttempts(t'.jobs, t'.attempts) && KnownAssessments(t'.attempts, t'.assessments)
  {
    var t' := CompleteAttempt(t, assessmentId, attemptId, jobId, workerId, generation, m, n);
    forall key, j | key in t'.manifests && JobOf(t'.jobs, j, key.attemptId) ensures t'.jobs[j].status.JobComplete? {
      assert JobOf(t.jobs, j, key.attemptId);
      if key == ManifestKey(assessmentId, attemptId) { assert SameAttempt(t.jobs, j, jobId); }
    }
  }

  lemma CompleteAttemptKeeps(t: Tables, assessmentId: Id, attemptId: Id, jobId: Id, workerId: Id, generation: Option<nat>,
                             m: Manifest, n: nat)
    requires TablesOk(t) && JobOf(t.jobs, jobId, attemptId)
    requires Bound(ManifestKey(assessmentId, attemptId), m, t.assessments) && AllStored(m.core.entries, t.cores)
    ensures var t' := CompleteAttempt(t, assessmentId, attemptId, jobId, workerId, generation, m, n);
            TablesOk(t') && Extends(t, t')
  {
    ExtendsItself(t);
    if CanComplete(t, assessmentId, attemptId, jobId, workerId, generation, n) {
      CompletionWritesOnce(t, assessmentId, attemptId, jobId, workerId, generation, n);
      CompletionExtends(t, assessmentId, attemptId, jobId, workerId, generation, m, n);
      CompletionKeepsManifests(t, assessmentId, attemptId, jobId, workerId, generation, m, n);
      CompletionFinishes(t, assessmentId, attemptId, jobId, workerId, generation, m, n);
      JobMoveKeepsJobs(t, jobId, CompleteAttempt(t, assessmentId, attemptId, jobId, workerId, generation, m, n).jobs[jobId]);
    }
  }
}
