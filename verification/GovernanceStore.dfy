/** The store: each method runs its SQL statements on the tables in place. */
module GovernanceStore {
  import opened Wrappers
  import opened EvidenceRecords
  import opened GovernanceTables

  datatype CompletionResult = Completed | AttemptNotRunning | AssessmentNotRunning | EvidenceShort | LeaseLost

  lemma LeaseReadsJobs(t: Tables, u: Tables, jobId: Id, workerId: Id, generation: Option<nat>)
    requires t.jobs == u.jobs && t.now == u.now
    ensures HoldsLease(t, jobId, workerId, generation) == HoldsLease(u, jobId, workerId, generation)
  {
  }

  lemma NotCompletedIsUnchanged(t: Tables, assessmentId: Id, attemptId: Id, jobId: Id, workerId: Id, generation: Option<nat>,
                                manifest: Manifest, validatorCount: nat)
    requires !CanComplete(t, assessmentId, attemptId, jobId, workerId, generation, validatorCount)
    ensures CompleteAttempt(t, assessmentId, attemptId, jobId, workerId, generation, manifest, validatorCount) == t
  {
  }

  lemma CompletedIs(t: Tables, u: Tables, assessmentId: Id, attemptId: Id, jobId: Id, workerId: Id, generation: Option<nat>,
                    manifest: Manifest, validatorCount: nat)
    requires CanComplete(t, assessmentId, attemptId, jobId, workerId, generation, validatorCount)
    requires u.links == SelectLinks(t, assessmentId, attemptId)
    requires u.manifests == t.manifests[ManifestKey(assessmentId, attemptId) := manifest]
    requires u.attempts == t.attempts[attemptId := t.attempts[attemptId].(status := AttemptComplete)]
    requires u.jobs == t.jobs[jobId := t.jobs[jobId].(status := JobComplete, leaseExpiresAt := None)]
    requires u.assessments == t.assessments[assessmentId := t.assessments[assessmentId].(status := Deciding)]
    requires u == t.(links := u.links, manifests := u.manifests, attempts := u.attempts, jobs := u.jobs, assessments := u.assessments)
    ensures u == CompleteAttempt(t, assessmentId, attemptId, jobId, workerId, generation, manifest, validatorCount)
  {
    hide SelectLinks, LinksOf;
  }

  class Store {
    var now: int
    var jobs: map<Id, Job>
    var attempts: map<Id, Attempt>
    var assessments: map<Id, Assessment>
    var cores: map<Digest, EvidenceCore>
    var links: map<LinkKey, Link>
    var manifests: map<ManifestKey, Manifest>
    var decisions: map<Id, IssuedDecision>
    var profiles: map<SnapshotKey, Profile>
    var policies: map<SnapshotKey, Id>
    var contracts: map<Id, Id>

    function Contents(): Tables
      reads this
    {
      Tables(now, jobs, attempts, assessments, cores, links, manifests, decisions, profiles, policies, contracts)
    }

    /** SKIP LOCKED passes over rows another transaction holds; of the rest the longest due is taken. */
    method ClaimNextGovernanceJob(workerId: Id, leaseSeconds: int, locked: set<Id>) returns (r: Option<Id>)
      modifies this`jobs
      ensures r.None? <==> (forall j :: Claimable(old(Contents()), j) ==> j in locked)
      ensures r.Some? ==> Claimable(old(Contents()), r.value) && r.value !in locked
      ensures r.Some? ==>
        forall j :: Claimable(old(Contents()), j) && j !in locked ==> old(jobs)[r.value].availableAt <= old(jobs)[j].availableAt
      ensures Contents() == if r.Some? then Claim(old(Contents()), r.value, workerId, leaseSeconds) else old(Contents())
    {
      r := None;
      var todo := jobs.Keys - locked;
      while todo != {}
        invariant todo <= jobs.Keys - locked
        invariant r.Some? ==> Claimable(Contents(), r.value) && r.value !in locked
        invariant forall j :: Claimable(Contents(), j) && j !in locked && j !in todo ==>
          r.Some? && jobs[r.value].availableAt <= jobs[j].availableAt
        decreases todo
      {
        var j :| j in todo;
        todo := todo - {j};
        if Claimable(Contents(), j) && (r.None? || jobs[j].availableAt < jobs[r.value].availableAt) {
          r := Some(j);
        }
      }
      if r.Some? {
        var job := jobs[r.value];
        jobs := jobs[r.value := job.(
          status := JobClaimed, workerId := Some(workerId), leaseExpiresAt := Some(now + LeaseSeconds(leaseSeconds)),
          leaseGeneration := job.leaseGeneration + 1, claimCount := job.claimCount + 1)];
      }
    }

    method HeartbeatJob(jobId: Id, workerId: Id, generation: Option<nat>, leaseSeconds: int) returns (held: bool)
      modifies this`jobs
      ensures held == HoldsLease(old(Contents()), jobId, workerId, generation)
      ensures Contents() == Heartbeat(old(Contents()), jobId, workerId, generation, leaseSeconds)
    {
      held := HoldsLease(Contents(), jobId, workerId, generation);
      if held {
        jobs := jobs[jobId := jobs[jobId].(leaseExpiresAt := Some(now + LeaseSeconds(leaseSeconds)))];
      }
    }

    method TransitionJobToRunning(jobId: Id, workerId: Id, generation: Option<nat>) returns (started: bool)
      modifies this`jobs
      ensures started == CanStart(old(Contents()), jobId, workerId, generation)
      ensures Contents() == StartJob(old(Contents()), jobId, workerId, generation)
    {
      started := HoldsLease(Contents(), jobId, workerId, generation) && jobs[jobId].status.JobClaimed?;
      if started {
        jobs := jobs[jobId := jobs[jobId].(status := JobRunning)];
      }
    }

    method FailJob(jobId: Id, workerId: Id, rescheduleAt: Option<int>, generation: Option<nat>) returns (failed: bool)
      modifies this`jobs
      ensures failed == HoldsLease(old(Contents()), jobId, workerId, generation)
      ensures Contents() == GovernanceTables.FailJob(old(Contents()), jobId, workerId, rescheduleAt, generation)
    {
      failed := HoldsLease(Contents(), jobId, workerId, generation);
      if failed {
        var job := jobs[jobId];
        if rescheduleAt.Some? {
          job := job.(status := JobAvailable, workerId := None, leaseExpiresAt := None, availableAt := rescheduleAt.value);
        } else {
          job := job.(status := JobFailed, leaseExpiresAt := None);
        }
        jobs := jobs[jobId := job];
      }
    }

    method CancelJob(jobId: Id, workerId: Option<Id>, generation: Option<nat>) returns (cancelled: bool)
      modifies this`jobs
      ensures cancelled == CanCancel(old(Contents()), jobId, workerId, generation)
      ensures Contents() == GovernanceTables.CancelJob(old(Contents()), jobId, workerId, generation)
    {
      cancelled := CanCancel(Contents(), jobId, workerId, generation);
      if cancelled {
        jobs := jobs[jobId := jobs[jobId].(status := JobCancelled, leaseExpiresAt := None)];
      }
    }

    method UpdateAttemptStatus(attemptId: Id, status: AttemptStatus) returns (found: bool)
      modifies this`attempts
      ensures found == (attemptId in old(attempts))
      ensures Contents() == SetAttempt(old(Contents()), attemptId, status)
    {
      found := attemptId in attempts;
      if found {
        attempts := attempts[attemptId := attempts[attemptId].(status := status)];
      }
    }

    method UpdateAssessmentStatus(assessmentId: Id, status: AssessmentStatus) returns (found: bool)
      modifies this`assessments
      ensures found == (assessmentId in old(assessments))
      ensures Contents() == SetAssessment(old(Contents()), assessmentId, status)
    {
      found := assessmentId in assessments;
      if found {
        assessments := assessments[assessmentId := assessments[assessmentId].(status := status)];
      }
    }

    /** Returns the row that is stored, whoever stored it. */
    method UpsertEvidenceCore(core: EvidenceCore) returns (row: EvidenceCore)
      modifies this`cores
      ensures Contents() == UpsertCore(old(Contents()), core)
      ensures CoreDigest(core) in cores && row == cores[CoreDigest(core)]
    {
      if CoreDigest(core) !in cores {
        cores := cores[CoreDigest(core) := core];
      }
      row := cores[CoreDigest(core)];
    }

    /** The two queries with nothing in between; the protocol lets other statements in. */
    method LinkEvidenceToAssessment(key: LinkKey, coreHash: Digest) returns (linked: bool)
      modifies this`links
      ensures linked == (ManifestKey(key.assessmentId, key.attemptId) !in old(manifests))
      ensures Contents() == if linked then InsertLink(old(Contents()), key, coreHash) else old(Contents())
    {
      if ManifestKey(key.assessmentId, key.attemptId) in manifests {
        return false;
      }
      links := links[key := Link(coreHash, key in links && links[key].selected)];
      linked := true;
    }

    /** Marks the evidence selected, stores the manifest and completes the attempt. */
    method WriteOutcome(assessmentId: Id, attemptId: Id, manifest: Manifest)
      requires attemptId in attempts
      modifies this`links, this`manifests, this`attempts
      ensures links == SelectLinks(old(Contents()), assessmentId, attemptId)
      ensures manifests == old(manifests)[ManifestKey(assessmentId, attemptId) := manifest]
      ensures attempts == old(attempts)[attemptId := old(attempts)[attemptId].(status := AttemptComplete)]
    {
      hide SelectLinks;
      links := SelectLinks(Contents(), assessmentId, attemptId);
      manifests := manifests[ManifestKey(assessmentId, attemptId) := manifest];
      attempts := attempts[attemptId := attempts[attemptId].(status := AttemptComplete)];
    }

    /** The job update, which checks the lease, and the assessment update after it. */
    method FinishJob(assessmentId: Id, jobId: Id, workerId: Id, generation: Option<nat>) returns (owned: bool)
      requires assessmentId in assessments
      modifies this`jobs, this`assessments
      ensures owned == HoldsLease(old(Contents()), jobId, workerId, generation)
      ensures owned ==> jobId in old(jobs)
      ensures owned ==> jobs == old(jobs)[jobId := old(jobs)[jobId].(status := JobComplete, leaseExpiresAt := None)]
      ensures owned ==> assessments == old(assessments)[assessmentId := old(assessments)[assessmentId].(status := Deciding)]
      ensures !owned ==> jobs == old(jobs) && assessments == old(assessments)
    {
      owned := HoldsLease(Contents(), jobId, workerId, generation);
      if owned {
        jobs := jobs[jobId := jobs[jobId].(status := JobComplete, leaseExpiresAt := None)];
        assessments := assessments[assessmentId := assessments[assessmentId].(status := Deciding)];
      }
    }

    /** One transaction: the lease is checked last, by the job update, and its loss takes back
        everything written before it. */
    method CompleteAttemptAtomically(assessmentId: Id, attemptId: Id, jobId: Id, workerId: Id, generation: Option<nat>,
                                     manifest: Manifest, validatorCount: nat) returns (r: CompletionResult)
      modifies this`links, this`manifests, this`attempts, this`jobs, this`assessments
      ensures r.Completed? <==> CanComplete(old(Contents()), assessmentId, attemptId, jobId, workerId, generation, validatorCount)
      ensures Contents() == CompleteAttempt(old(Contents()), assessmentId, attemptId, jobId, workerId, generation,
                                            manifest, validatorCount)
      ensures r.LeaseLost? ==> !HoldsLease(old(Contents()), jobId, workerId, generation)
    {
      hide HoldsLease, SelectLinks, LinksOf, CompleteAttempt;
      ghost var before := Contents();
      if !CanComplete(before, assessmentId, attemptId, jobId, workerId, generation, validatorCount) {
        NotCompletedIsUnchanged(before, assessmentId, attemptId, jobId, workerId, generation, manifest, validatorCount);
      }
      if attemptId !in attempts || !attempts[attemptId].status.AttemptRunning? {
        return AttemptNotRunning;
      }
      if assessmentId !in assessments || !assessments[assessmentId].status.Running? {
        return AssessmentNotRunning;
      }
      if validatorCount > 0 && |LinksOf(Contents(), assessmentId, attemptId)| < validatorCount {
        return EvidenceShort;
      }
      var oldLinks, oldManifests, oldAttempts := links, manifests, attempts;
      WriteOutcome(assessmentId, attemptId, manifest);
      LeaseReadsJobs(before, Contents(), jobId, workerId, generation);
      var owned := FinishJob(assessmentId, jobId, workerId, generation);
      if !owned {
        links, manifests, attempts := oldLinks, oldManifests, oldAttempts;
        return LeaseLost;
      }
      CompletedIs(before, Contents(), assessmentId, attemptId, jobId, workerId, generation, manifest, validatorCount);
      r := Completed;
    }

    method PersistIssuedDecisionAtomically(assessmentId: Id, d: IssuedDecision) returns (r: PersistOutcome)
      modifies this`decisions, this`assessments
      ensures r == PersistOutcomeOf(old(Contents()), assessmentId, d)
      ensures Contents() == PersistDecision(old(Contents()), assessmentId, d)
    {
      if assessmentId !in assessments {
        return AssessmentMissing;
      }
      if assessmentId in decisions {
        if decisions[assessmentId].decisionHash != d.decisionHash {
          return HashConflict;
        }
        return Stored(decisions[assessmentId]);
      }
      if !assessments[assessmentId].status.Deciding? {
        return NotDeciding;
      }
      if HashIssued(decisions, d.decisionHash) {
        return HashTaken;
      }
      decisions := decisions[assessmentId := d];
      assessments := assessments[assessmentId :=
        assessments[assessmentId].(decisionHash := Some(d.decisionHash), status := Complete)];
      r := Stored(d);
    }
  }
}
