/** Who may take a job and who may write under its lease, on the job row's status and times alone. */
module LeaseRules {
  import opened Wrappers
  import opened EvidenceRecords
  import opened GovernanceTables
  import opened TableInvariants
  import opened GovernanceProtocol
  import opened GovernanceSafety
  import opened GovernanceTheorems

  // ---- new rows ----------------------------------------------------------------------------------

  /** A new assessment is queued, and so are a new attempt of it and a job, due at the given time and held by nobody; a row that is
      there already is left alone. */
  lemma NewRowsAre(t: Tables, assessmentId: Id, authority: Authority, attemptId: Id, jobId: Id, availableAt: int)
    ensures CreateAssessment(t, assessmentId, authority) ==
              if assessmentId in t.assessments then t
              else t.(assessments := t.assessments[assessmentId := Assessment(authority, Queued, None)])
    ensures CreateAttemptAndJob(t, assessmentId, attemptId, jobId, availableAt) ==
              if assessmentId in t.assessments && attemptId !in t.attempts && jobId !in t.jobs
              then t.(attempts := t.attempts[attemptId := Attempt(assessmentId, AttemptQueued)],
                      jobs := t.jobs[jobId := Job(assessmentId, attemptId, JobAvailable, None, None, 0, 0, availableAt)])
              else t
  {
  }

  // ---- taking a job ----------------------------------------------------------------------------

  /** A job under a lease that still runs, one that is not due, and one that has ended are passed
      over by every poll: nothing at all changes. */
  lemma RunningLeaseIsNotTaken(s: State, jobId: Id, workerId: Id, leaseSeconds: int)
    requires jobId in s.t.jobs
    requires var job := s.t.jobs[jobId];
             || ((job.status == JobClaimed || job.status == JobRunning) && job.leaseExpiresAt.Some? && job.leaseExpiresAt.value > s.t.now)
             || (job.status == JobAvailable && job.availableAt > s.t.now)
             || job.status == JobComplete || job.status == JobFailed || job.status == JobCancelled
    ensures Apply(s, TakeJob(jobId, workerId, leaseSeconds)) == s
  {
  }

  /** A job that is due, and one whose lease has passed, goes to the next poll: the row names the
      new worker, its lease and its generation, and a process starts with that claim. */
  lemma DueJobIsTaken(s: State, jobId: Id, workerId: Id, leaseSeconds: int)
    requires jobId in s.t.jobs
    requires var job := s.t.jobs[jobId];
             || (job.status == JobAvailable && job.availableAt <= s.t.now)
             || ((job.status == JobClaimed || job.status == JobRunning) && job.leaseExpiresAt.Some? && job.leaseExpiresAt.value <= s.t.now)
    ensures var job := s.t.jobs[jobId];
            var s' := Apply(s, TakeJob(jobId, workerId, leaseSeconds));
            var taken := Job(job.assessmentId, job.attemptId, JobClaimed, Some(workerId),
                             Some(s.t.now + if leaseSeconds < 30 then 30 else leaseSeconds),
                             job.leaseGeneration + 1, job.claimCount + 1, job.availableAt);
            && s'.t == s.t.(jobs := s.t.jobs[jobId := taken])
            && s'.workers == s.workers + [Worker(workerId, jobId, job.assessmentId, job.attemptId, job.leaseGeneration + 1,
                                                 job.claimCount + 1, JobTaken, false, [])]
            && s' == s.(t := s'.t, workers := s'.workers)
  {
  }

  /** Over every run: whoever can still write under a lease is not robbed of it by any poll. */
  lemma HolderIsNotRobbed(events: seq<Event>, jobId: Id, workerId: Id, generation: nat, other: Id, leaseSeconds: int)
    requires HoldsLease(Run(START, events).t, jobId, workerId, Some(generation))
    ensures Apply(Run(START, events), TakeJob(jobId, other, leaseSeconds)) == Run(START, events)
  {
    hide Run, Apply;
    RunningLeaseIsNotTaken(Run(START, events), jobId, other, leaseSeconds);
  }

  /** Over every run: a held job is taken exactly when its lease has passed. */
  lemma HeldJobIsTakenExactlyWhenExpired(events: seq<Event>, jobId: Id, other: Id, leaseSeconds: int)
    requires var t := Run(START, events).t;
             jobId in t.jobs && (t.jobs[jobId].status == JobClaimed || t.jobs[jobId].status == JobRunning)
    ensures var s := Run(START, events);
            && s.t.jobs[jobId].leaseExpiresAt.Some?
            && (Apply(s, TakeJob(jobId, other, leaseSeconds)) != s <==> s.t.jobs[jobId].leaseExpiresAt.value <= s.t.now)
  {
    hide Run, Apply;
    var s := Run(START, events);
    Reachable(events);
    assert LeaseOk(s.t.jobs[jobId]);
    if s.t.jobs[jobId].leaseExpiresAt.value <= s.t.now {
      DueJobIsTaken(s, jobId, other, leaseSeconds);
    } else {
      RunningLeaseIsNotTaken(s, jobId, other, leaseSeconds);
    }
  }

  // ---- writing under a lease --------------------------------------------------------------------

  /** The row is held by this process: its worker, its generation, and a lease that still runs. */
  predicate Owns(t: Tables, w: Worker) {
    && w.jobId in t.jobs
    && t.jobs[w.jobId].workerId == Some(w.workerId)
    && t.jobs[w.jobId].leaseGeneration == w.leaseGeneration
    && (t.jobs[w.jobId].status == JobClaimed || t.jobs[w.jobId].status == JobRunning)
    && t.jobs[w.jobId].leaseExpiresAt.Some?
    && t.now < t.jobs[w.jobId].leaseExpiresAt.value
  }

  /** The tables with another row for the worker's job. */
  function WithRow(t: Tables, w: Worker, row: Job): Tables {
    t.(jobs := t.jobs[w.jobId := row])
  }

  /** A heartbeat runs the lease on from now, for its owner and nobody else. */
  lemma BeatExactlyWhenOwned(t: Tables, w: Worker, leaseSeconds: int)
    ensures WorkerTables(t, w, Beat(leaseSeconds)) ==
              if Owns(t, w)
              then WithRow(t, w, t.jobs[w.jobId].(leaseExpiresAt := Some(t.now + if leaseSeconds < 30 then 30 else leaseSeconds)))
              else t
  {
  }

  /** A start needs the owner's lease on a job that is claimed and not yet running; otherwise the process ends. */
  lemma StartExactlyWhenOwned(t: Tables, w: Worker)
    ensures var starts := Owns(t, w) && t.jobs[w.jobId].status == JobClaimed;
            && WorkerTables(t, w, Start) == (if starts then WithRow(t, w, t.jobs[w.jobId].(status := JobRunning)) else t)
            && WorkerNext(t, w, Start) == w.(pc := if starts then Started else Finished)
  {
  }

  /** Failing for good ends the job, and a reschedule frees it until a given time, for its owner only. */
  lemma FailExactlyWhenOwned(t: Tables, w: Worker, at: int)
    ensures WorkerTables(t, w, GiveUp) == WorkerTables(t, w, FailForGood) ==
              if Owns(t, w) then WithRow(t, w, t.jobs[w.jobId].(status := JobFailed, leaseExpiresAt := None)) else t
    ensures WorkerTables(t, w, Reschedule(at)) ==
              if Owns(t, w)
              then WithRow(t, w, t.jobs[w.jobId].(status := JobAvailable, workerId := None, leaseExpiresAt := None, availableAt := at))
              else t
  {
  }

  /** So does its cancellation, in tables where, as in every reachable state, exactly the held jobs have a lease. */
  lemma CancelExactlyWhenOwned(t: Tables, w: Worker)
    requires w.jobId in t.jobs ==> LeaseOk(t.jobs[w.jobId])
    ensures WorkerTables(t, w, CancelHeld) ==
              if Owns(t, w) then WithRow(t, w, t.jobs[w.jobId].(status := JobCancelled, leaseExpiresAt := None)) else t
  {
  }

  /** Without a worker a job is cancelled exactly while it waits or is held, whoever holds it. */
  lemma UnheldCancelExactlyWhen(t: Tables, jobId: Id)
    ensures CancelJob(t, jobId, None, None) ==
              if jobId in t.jobs && t.jobs[jobId].status != JobComplete && t.jobs[jobId].status != JobFailed && t.jobs[jobId].status != JobCancelled
              then t.(jobs := t.jobs[jobId := t.jobs[jobId].(status := JobCancelled, leaseExpiresAt := None)]) else t
  {
  }

  /** A lease that has passed is worth nothing to anybody, even while no one else has taken the job. */
  lemma ExpiredOwnerWritesNothing(t: Tables, w: Worker, op: WorkerOp)
    requires w.jobId in t.jobs && t.jobs[w.jobId].leaseExpiresAt.Some? && t.jobs[w.jobId].leaseExpiresAt.value <= t.now
    requires op.GiveUp? || op.Start? || op.Beat? || op.FailForGood? || op.Reschedule? || op.CancelHeld? || op.Finalize?
    ensures WorkerTables(t, w, op) == t
  {
  }

  // ---- the completion --------------------------------------------------------------------------

  predicate MayFinalize(t: Tables, w: Worker, n: nat) {
    && w.attemptId in t.attempts && t.attempts[w.attemptId].status == AttemptRunning
    && w.assessmentId in t.assessments && t.assessments[w.assessmentId].status == AssessmentStatus.Running
    && n <= |set k | k in t.links && k.assessmentId == w.assessmentId && k.attemptId == w.attemptId|
    && Owns(t, w)
  }

  lemma FinalizesExactlyWhen(t: Tables, w: Worker, sorted: seq<ManifestEntry>)
    ensures Finalizes(t, w, Finalize(sorted)) <==> MayFinalize(t, w, |w.entries|)
  {
  }

  /** A completion writes all five tables when attempt and assessment run, enough evidence is linked and the process owns the
      job, and none otherwise. */
  lemma FinalizeExactlyWhenOwned(t: Tables, w: Worker, sorted: seq<ManifestEntry>)
    ensures var t' := WorkerTables(t, w, Finalize(sorted));
            if !MayFinalize(t, w, |w.entries|) then t' == t
            else
              var a := t.assessments[w.assessmentId].authority;
              var core := ManifestCore(a.subjectDigest, a.profileDigest, a.executionContractHash, sorted);
              && t' == t.(jobs := t.jobs[w.jobId := t.jobs[w.jobId].(status := JobComplete, leaseExpiresAt := None)],
                          attempts := t.attempts[w.attemptId := t.attempts[w.attemptId].(status := AttemptComplete)],
                          assessments := t.assessments[w.assessmentId := t.assessments[w.assessmentId].(status := Deciding)],
                          manifests := t.manifests[ManifestKey(w.assessmentId, w.attemptId) :=
                            Manifest(w.assessmentId, w.attemptId, core, ManifestDigest(core), ManifestDigest(core))],
                          links := t'.links)
              && t'.links.Keys == t.links.Keys
              && forall k :: k in t.links ==>
                   t'.links[k] == if k.assessmentId == w.assessmentId && k.attemptId == w.attemptId
                                  then Link(t.links[k].coreHash, true) else t.links[k]
  {
    FinalizesExactlyWhen(t, w, sorted);
    hide MayFinalize, Owns, HoldsLease, LinksOf;
  }

  /** Evidence is linked after a look that found no manifest yet, and that look is used up by it. A row that is there keeps its
      selection. */
  lemma LinkExactlyWhen(t: Tables, w: Worker, core: EvidenceCore)
    ensures WorkerNext(t, w, CheckNotFinalized) == w.(linkChecked := ManifestKey(w.assessmentId, w.attemptId) !in t.manifests)
    ensures Enabled(t, w, AttachLink(core)) <==> w.pc == Evaluating && w.linkChecked && CoreDigest(core) in t.cores
    ensures var key := LinkKey(w.assessmentId, w.attemptId, core.validatorId);
            WorkerTables(t, w, AttachLink(core)) ==
              t.(links := t.links[key := Link(CoreDigest(core), if key in t.links then t.links[key].selected else false)])
    ensures WorkerNext(t, w, AttachLink(core)) ==
              w.(linkChecked := false, entries := w.entries + [ManifestEntry(core.validatorId, core.validatorVersion, CoreDigest(core))])
  {
  }

  // ---- what a process may do ----------------------------------------------------------------------

  /** When a worker process may issue each statement. Heartbeats go on from the evaluation until after its end; evidence and completion
      belong to the evaluation; a failure is reported by the evaluation, after a final infrastructure error or after an exception. */
  lemma AllowedExactlyWhen(w: Worker, op: WorkerOp)
    ensures var final := match w.pc
                         case Wrapping(InfrastructureError(retryable)) => !retryable || w.claimCount >= 3
                         case Wrapping(Threw) => true
                         case _ => false;
            var wrapsError := w.pc.Wrapping? && w.pc.outcome != Settled;
            Allowed(w, op) <==> match op
              case GiveUp => w.pc == JobTaken && w.claimCount > 3
              case GiveUpUnwritten => w.pc == JobTaken && w.claimCount > 3
              case Start => w.pc == JobTaken && w.claimCount <= 3
              case Beat(_) => w.pc == Evaluating || w.pc.Wrapping? || w.pc == Finished
              case MarkAttempt(s) =>
                || (w.pc == Evaluating && (s == AttemptRunning || s == AttemptError || s == AttemptCancelled))
                || ((w.pc == GivingUp || wrapsError) && s == AttemptError)
              case MarkAssessment(s) =>
                || (w.pc == Started && s == AssessmentStatus.Running)
                || (w.pc == Evaluating && (s == Error || s == Cancelled))
                || ((w.pc == GivingUp || final) && s == Error)
              case BeginEvaluation => w.pc == Started
              case PersistCore(_) => w.pc == Evaluating
              case CheckNotFinalized => w.pc == Evaluating
              case AttachLink(_) => w.pc == Evaluating
              case Finalize(_) => w.pc == Evaluating
              case FailForGood => w.pc == Evaluating || final
              case Reschedule(_) => w.pc == Wrapping(InfrastructureError(true)) && w.claimCount < 3
              case CancelHeld => w.pc == Evaluating
              case EndEvaluation(_) => w.pc == Evaluating
              case Leave => w.pc == GivingUp || w.pc == Started || w.pc.Wrapping?
  {
  }

  /** A statement that is not allowed, or whose foreign key, trust class or sort is not in order, changes nothing; any other does what
      it does to the tables and moves its own process only. */
  lemma StepExactlyWhen(s: State, pid: nat, op: WorkerOp)
    ensures var s' := Apply(s, Work(pid, op));
            if && pid < |s.workers| && Allowed(s.workers[pid], op)
               && (op.PersistCore? ==> op.core.trustClass == DeeprunExecuted)
               && (op.AttachLink? ==> s.workers[pid].linkChecked && CoreDigest(op.linked) in s.t.cores)
               && (op.Finalize? ==> multiset(op.sorted) == multiset(s.workers[pid].entries) && s.workers[pid].assessmentId in s.t.assessments)
            then && s'.t == WorkerTables(s.t, s.workers[pid], op)
                 && s'.workers == s.workers[pid := WorkerNext(s.t, s.workers[pid], op)]
                 && s'.issuers == s.issuers && s'.chosen == s.chosen
            else s' == s
  {
    hide Allowed, WorkerTables, WorkerNext, Finalizes;
  }

  // ---- three evaluations -----------------------------------------------------------------------

  /** After n crashes of n processes: the lease of the last one has passed. */
  ghost predicate Crashed(s: State, n: nat) {
    && 0 in s.t.jobs && |s.workers| == n && s.t.jobs[0].claimCount == n && s.t.jobs[0].leaseGeneration == n
    && (if n == 0 then s.t.jobs[0].status == JobAvailable && s.t.jobs[0].availableAt <= s.t.now
        else s.t.jobs[0].status == JobRunning && s.t.jobs[0].leaseExpiresAt.Some? && s.t.jobs[0].leaseExpiresAt.value <= s.t.now)
    && |CallsFor(s.evaluations, 0)| == n
  }

  /** A worker takes the job, evaluates, and is not heard of again until its lease has passed. */
  function Crash(n: nat): seq<Event> {
    [TakeJob(0, n, 30), Work(n, Start), Work(n, BeginEvaluation), Tick(30)]
  }

  lemma OneMoreCall(evaluations: seq<Evaluation>, e: Evaluation)
    requires e.jobId == 0
    ensures |CallsFor(evaluations + [e], 0)| == |CallsFor(evaluations, 0)| + 1
  {
    assert (evaluations + [e])[..|evaluations|] == evaluations;
  }

  lemma RunOne(s: State, e: Event, rest: seq<Event>)
    ensures Run(s, [e] + rest) == Run(Apply(s, e), rest)
  {
    hide Apply;
    assert ([e] + rest)[1..] == rest;
  }

  lemma RunFour(s: State, e: Event, f: Event, g: Event, h: Event)
    ensures Run(s, [e, f, g, h]) == Apply(Apply(Apply(Apply(s, e), f), g), h)
  {
    hide Apply, Run;
    assert [e, f, g, h] == [e] + ([f] + ([g] + ([h] + [])));
    RunOne(s, e, [f] + ([g] + ([h] + [])));
    RunOne(Apply(s, e), f, [g] + ([h] + []));
    RunOne(Apply(Apply(s, e), f), g, [h] + []);
    RunOne(Apply(Apply(Apply(s, e), f), g), h, []);
    RunNone(Apply(Apply(Apply(Apply(s, e), f), g), h));
  }

  lemma RunNone(s: State)
    ensures Run(s, []) == s
  {
  }

  /** The worker has started and will not be heard of again. */
  ghost predicate Starting(s: State, n: nat) {
    && 0 in s.t.jobs && s.t.jobs[0].claimCount == n + 1 && s.t.jobs[0].leaseGeneration == n + 1
    && s.t.jobs[0].status == JobRunning && s.t.jobs[0].leaseExpiresAt == Some(s.t.now + 30)
    && |s.workers| == n + 1 && s.workers[n].pc == Started && s.workers[n].jobId == 0 && s.workers[n].leaseGeneration == n + 1
  }

  lemma CrashStarts(s: State, n: nat)
    requires n < 3 && Crashed(s, n)
    ensures var s' := Apply(Apply(s, TakeJob(0, n, 30)), Work(n, Start));
            Starting(s', n) && s'.evaluations == s.evaluations
  {
    hide CallsFor;
    DueJobIsTaken(s, 0, n, 30);
    var s1 := Apply(s, TakeJob(0, n, 30));
    assert s1.workers[n] == Worker(n, 0, s1.t.jobs[0].assessmentId, s1.t.jobs[0].attemptId, n + 1, n + 1, JobTaken, false, []);
    hide Claim, TakeStep;
    StartExactlyWhenOwned(s1.t, s1.workers[n]);
    hide WorkerTables, WorkerNext;
  }

  lemma CrashEvaluates(s: State, n: nat)
    requires Starting(s, n) && |CallsFor(s.evaluations, 0)| == n
    ensures Crashed(Apply(Apply(s, Work(n, BeginEvaluation)), Tick(30)), n + 1)
  {
    hide CallsFor;
    OneMoreCall(s.evaluations, Evaluation(n, 0, n + 1));
    assert Apply(s, Work(n, BeginEvaluation)).evaluations == s.evaluations + [Evaluation(n, 0, n + 1)];
  }

  lemma CrashAgain(s: State, n: nat)
    requires n < 3 && Crashed(s, n)
    ensures Crashed(Run(s, Crash(n)), n + 1)
  {
    RunFour(s, TakeJob(0, n, 30), Work(n, Start), Work(n, BeginEvaluation), Tick(30));
    hide CallsFor, Run, Apply, Starting;
    CrashStarts(s, n);
    CrashEvaluates(Apply(Apply(s, TakeJob(0, n, 30)), Work(n, Start)), n);
  }

  /** The bound of three evaluations is met: a job whose worker crashes three times is evaluated three times, by the run
      that starts from the empty tables. */
  lemma ThreeCrashesAreThreeEvaluations(a: Authority)
    ensures |CallsFor(Run(START, [NewAssessment(0, a), NewAttempt(0, 0, 0, 0)] + (Crash(0) + (Crash(1) + Crash(2)))).evaluations, 0)| == 3
  {
    hide Run;
    var first := [NewAssessment(0, a), NewAttempt(0, 0, 0, 0)];
    JobIsCreated(a);
    RunSplits(START, first, Crash(0) + (Crash(1) + Crash(2)));
    var s := Run(START, first);
    CrashAgain(s, 0);
    RunSplits(s, Crash(0), Crash(1) + Crash(2));
    CrashAgain(Run(s, Crash(0)), 1);
    RunSplits(Run(s, Crash(0)), Crash(1), Crash(2));
    CrashAgain(Run(Run(s, Crash(0)), Crash(1)), 2);
  }

  lemma JobIsCreated(a: Authority)
    ensures Crashed(Run(START, [NewAssessment(0, a), NewAttempt(0, 0, 0, 0)]), 0)
  {
    hide Run;
    var e, f := NewAssessment(0, a), NewAttempt(0, 0, 0, 0);
    assert [e, f] == [e] + ([f] + []);
    RunOne(START, e, [f] + []);
    RunOne(Apply(START, e), f, []);
    RunNone(Apply(Apply(START, e), f));
  }
}
