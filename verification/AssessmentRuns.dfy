/** Concrete runs of the governance protocol: one worker takes an assessment of one passing
    core to its manifest, and issuers read it step by step. */
module AssessmentRuns {
  import opened Wrappers
  import opened EvidenceRecords
  import opened DecisionRules
  import opened GovernanceTables
  import opened TableInvariants
  import opened GovernanceProtocol
  import opened GovernanceTheorems

  const PROFILE := Profile(0, 0, [ValidatorRef(Structure, 0)])
  const AUTHORITY := Authority(
    0, 0, SnapshotKey(0, 0), DigestOfProfile(PROFILE), SnapshotKey(0, 0), PolicyDigest(0), 0,
    InputDigest(0, DigestOfProfile(PROFILE), PolicyDigest(0), 0))
  const CORE := EvidenceCore(0, Structure, 0, DigestOfProfile(PROFILE), 0, DeeprunExecuted, PASS, [])
  const ENTRY := ManifestEntry(Structure, 0, CoreDigest(CORE))
  const BODY := ManifestCore(0, DigestOfProfile(PROFILE), 0, [ENTRY])
  const DECISION := DecisionOf(AUTHORITY, ManifestDigest(BODY), 0, {})

  const SNAPSHOTS: seq<Event> := [PutProfile(SnapshotKey(0, 0), PROFILE), PutPolicy(SnapshotKey(0, 0), 0), PutContract(0, 0)]

  /** One assessment taken by one worker that has its single passing core linked. */
  function Enrolment(n: nat): seq<Event> {
    [NewAssessment(n, AUTHORITY), NewAttempt(n, n, n, 0), TakeJob(n, n, 30)]
  }

  function Preparation(n: nat): seq<Event> {
    [Work(n, Start), Work(n, MarkAssessment(Running)), Work(n, BeginEvaluation), Work(n, MarkAttempt(AttemptRunning))]
  }

  function Evidencing(n: nat): seq<Event> {
    [Work(n, PersistCore(CORE)), Work(n, CheckNotFinalized), Work(n, AttachLink(CORE)), Work(n, Finalize([ENTRY]))]
  }

  /** The next k steps of one issuer. */
  function Issues(pid: nat, k: nat): seq<Event> {
    if k == 0 then [] else [Issue(pid)] + Issues(pid, k - 1)
  }

  function ManifestOfRun(n: nat): Manifest {
    Manifest(n, n, BODY, ManifestDigest(BODY), ManifestDigest(BODY))
  }

  /** Everything the stages for assessment n look at, before the first of them. */
  ghost predicate Ready(s: State, n: nat) {
    && s.t.now == 0 && |s.workers| == n && |s.issuers| == n
    && n !in s.t.assessments && n !in s.t.attempts && n !in s.t.jobs && n !in s.t.decisions && n !in s.chosen
    && (forall k :: k in s.t.links ==> k.assessmentId != n)
    && CoresOk(s.t.cores)
    && s.t.profiles == map[SnapshotKey(0, 0) := PROFILE] && s.t.policies == map[SnapshotKey(0, 0) := 0] && s.t.contracts == map[0 := 0]
    && ManifestKey(n, n) !in s.t.manifests
  }

  function WorkerAt(n: nat, pc: WorkerPc, linkChecked: bool, entries: seq<ManifestEntry>): Worker {
    Worker(n, n, n, n, 1, 1, pc, linkChecked, entries)
  }

  function JobAt(n: nat, status: JobStatus): Job {
    Job(n, n, status, Some(n), if Held(status) then Some(30) else None, 1, 1, 0)
  }

  function EnrolledTables(t: Tables, n: nat): Tables {
    t.(assessments := t.assessments[n := Assessment(AUTHORITY, Queued, None)],
       attempts := t.attempts[n := Attempt(n, AttemptQueued)],
       jobs := t.jobs[n := JobAt(n, JobClaimed)])
  }

  function PreparedTables(t: Tables, n: nat): Tables {
    t.(assessments := t.assessments[n := Assessment(AUTHORITY, Running, None)],
       attempts := t.attempts[n := Attempt(n, AttemptRunning)],
       jobs := t.jobs[n := JobAt(n, JobRunning)])
  }

  function LinkedTables(t: Tables, n: nat): Tables {
    PreparedTables(t, n).(
      cores := t.cores[CoreDigest(CORE) := CORE],
      links := t.links[LinkKey(n, n, Structure) := Link(CoreDigest(CORE), false)])
  }

  function DecidingTables(t: Tables, n: nat): Tables {
    t.(assessments := t.assessments[n := Assessment(AUTHORITY, Deciding, None)],
       attempts := t.attempts[n := Attempt(n, AttemptComplete)],
       jobs := t.jobs[n := JobAt(n, JobComplete)],
       cores := t.cores[CoreDigest(CORE) := CORE],
       links := t.links[LinkKey(n, n, Structure) := Link(CoreDigest(CORE), true)],
       manifests := t.manifests[ManifestKey(n, n) := ManifestOfRun(n)])
  }

  /** A state with one more worker, and the tables as they are by then. */
  ghost function With(s: State, t: Tables, w: Worker): State {
    s.(t := t, workers := s.workers + [w])
  }

  ghost function Evaluated(s: State, n: nat): State {
    s.(evaluations := s.evaluations + [Evaluation(n, n, 1)])
  }

  ghost function Worked(s: State, n: nat): State {
    With(Evaluated(s, n), DecidingTables(s.t, n), WorkerAt(n, Evaluating, false, [ENTRY])).(
      finishers := s.finishers[ManifestKey(n, n) := n])
  }

  lemma RunOfThree(s: State, a: Event, b: Event, c: Event)
    ensures Run(s, [a, b, c]) == Apply(Apply(Apply(s, a), b), c)
  {
    hide Apply;
    assert [a, b, c][1..] == [b, c] && [b, c][1..] == [c] && [c][1..] == [];
    assert Run(s, [a, b, c]) == Run(Apply(s, a), [b, c]);
    assert Run(Apply(s, a), [b, c]) == Run(Apply(Apply(s, a), b), [c]);
    assert Run(Apply(Apply(s, a), b), [c]) == Run(Apply(Apply(Apply(s, a), b), c), []);
  }

  lemma RunOfFour(s: State, a: Event, b: Event, c: Event, d: Event)
    ensures Run(s, [a, b, c, d]) == Apply(Apply(Apply(Apply(s, a), b), c), d)
  {
    hide Apply;
    assert [a, b, c, d][1..] == [b, c, d];
    assert Run(s, [a, b, c, d]) == Run(Apply(s, a), [b, c, d]);
    RunOfThree(Apply(s, a), b, c, d);
  }

  lemma LastWorkerSteps(s: State, t: Tables, w: Worker, op: WorkerOp)
    requires Enabled(t, w, op)
    ensures Apply(With(s, t, w), Work(|s.workers|, op)) ==
      With(s, WorkerTables(t, w, op), WorkerNext(t, w, op)).(
        evaluations := if op.BeginEvaluation? then s.evaluations + [Evaluation(|s.workers|, w.jobId, w.leaseGeneration)] else s.evaluations,
        finishers := if Finalizes(t, w, op) then s.finishers[ManifestKey(w.assessmentId, w.attemptId) := w.jobId] else s.finishers)
  {
    hide Enabled, WorkerTables, WorkerNext, Finalizes;
    var workers := With(s, t, w).workers;
    assert workers[|s.workers|] == w;
    assert workers[|s.workers| := WorkerNext(t, w, op)] == s.workers + [WorkerNext(t, w, op)];
  }

  lemma QuietStep(s: State, t: Tables, w: Worker, op: WorkerOp, t': Tables, w': Worker)
    requires Enabled(t, w, op) && !op.BeginEvaluation? && !op.Finalize?
    requires WorkerTables(t, w, op) == t' && WorkerNext(t, w, op) == w'
    ensures Apply(With(s, t, w), Work(|s.workers|, op)) == With(s, t', w')
  {
    hide Enabled, WorkerTables, WorkerNext, Apply;
    LastWorkerSteps(s, t, w, op);
    assert !Finalizes(t, w, op);
  }

  /** The tables with an attempt and its job queued for assessment n. */
  function QueuedTables(t: Tables, n: nat): Tables {
    t.(assessments := t.assessments[n := Assessment(AUTHORITY, Queued, None)],
       attempts := t.attempts[n := Attempt(n, AttemptQueued)],
       jobs := t.jobs[n := Job(n, n, JobAvailable, None, None, 0, 0, 0)])
  }

  lemma TakeQueued(s: State, n: nat)
    requires s.t.now == 0
    ensures TakeStep(s.(t := QueuedTables(s.t, n)), n, n, 30) == With(s, EnrolledTables(s.t, n), WorkerAt(n, JobTaken, false, []))
  {
    var job := Job(n, n, JobAvailable, None, None, 0, 0, 0);
    assert s.t.jobs[n := job][n := JobAt(n, JobClaimed)] == s.t.jobs[n := JobAt(n, JobClaimed)];
    assert Claim(QueuedTables(s.t, n), n, n, 30) == EnrolledTables(s.t, n);
    assert Claimable(QueuedTables(s.t, n), n);
    hide Claim, Claimable;
  }

  lemma QueuedIs(s: State, n: nat)
    requires Ready(s, n)
    ensures CreateAttemptAndJob(CreateAssessment(s.t, n, AUTHORITY), n, n, n, 0) == QueuedTables(s.t, n)
  {
    hide Run;
  }

  lemma Enrol(s: State, n: nat)
    requires Ready(s, n)
    ensures Run(s, Enrolment(n)) == With(s, EnrolledTables(s.t, n), WorkerAt(n, JobTaken, false, []))
  {
    RunOfThree(s, NewAssessment(n, AUTHORITY), NewAttempt(n, n, n, 0), TakeJob(n, n, 30));
    QueuedIs(s, n);
    TakeQueued(s, n);
    hide Run, TakeStep, CreateAttemptAndJob, CreateAssessment, EnrolledTables, QueuedTables, WorkerAt;
  }

  lemma StartTables(t: Tables, n: nat)
    requires t.now == 0
    ensures var w := WorkerAt(n, JobTaken, false, []);
            && Enabled(EnrolledTables(t, n), w, Start)
            && WorkerTables(EnrolledTables(t, n), w, Start) == EnrolledTables(t, n).(jobs := t.jobs[n := JobAt(n, JobRunning)])
            && WorkerNext(EnrolledTables(t, n), w, Start) == WorkerAt(n, Started, false, [])
  {
    assert t.jobs[n := JobAt(n, JobClaimed)][n := JobAt(n, JobRunning)] == t.jobs[n := JobAt(n, JobRunning)];
  }

  lemma MarkTables(t: Tables, n: nat)
    ensures var w := WorkerAt(n, Started, false, []);
            var t1 := EnrolledTables(t, n).(jobs := t.jobs[n := JobAt(n, JobRunning)]);
            var t2 := t1.(assessments := t.assessments[n := Assessment(AUTHORITY, Running, None)]);
            && Enabled(t1, w, MarkAssessment(Running))
            && WorkerTables(t1, w, MarkAssessment(Running)) == t2
            && WorkerNext(t1, w, MarkAssessment(Running)) == w
  {
    hide JobAt;
    assert EnrolledTables(t, n).assessments[n := Assessment(AUTHORITY, Running, None)]
        == t.assessments[n := Assessment(AUTHORITY, Running, None)];
  }

  lemma PreparedIs(t: Tables, n: nat)
    ensures var w := WorkerAt(n, Evaluating, false, []);
            var t2 := EnrolledTables(t, n).(jobs := t.jobs[n := JobAt(n, JobRunning)],
                                            assessments := t.assessments[n := Assessment(AUTHORITY, Running, None)]);
            && Enabled(t2, w, MarkAttempt(AttemptRunning))
            && WorkerTables(t2, w, MarkAttempt(AttemptRunning)) == PreparedTables(t, n)
            && WorkerNext(t2, w, MarkAttempt(AttemptRunning)) == w
  {
    hide JobAt;
    assert EnrolledTables(t, n).attempts[n := Attempt(n, AttemptRunning)] == t.attempts[n := Attempt(n, AttemptRunning)];
  }

  lemma BeginStep(s: State, t: Tables, n: nat)
    requires |s.workers| == n
    ensures Apply(With(s, t, WorkerAt(n, Started, false, [])), Work(n, BeginEvaluation))
            == With(Evaluated(s, n), t, WorkerAt(n, Evaluating, false, []))
  {
    hide Apply;
    LastWorkerSteps(s, t, WorkerAt(n, Started, false, []), BeginEvaluation);
  }

  lemma Prepare(s: State, n: nat)
    requires Ready(s, n)
    ensures Run(With(s, EnrolledTables(s.t, n), WorkerAt(n, JobTaken, false, [])), Preparation(n))
            == With(Evaluated(s, n), PreparedTables(s.t, n), WorkerAt(n, Evaluating, false, []))
  {
    var w1, w2, w3 := WorkerAt(n, JobTaken, false, []), WorkerAt(n, Started, false, []), WorkerAt(n, Evaluating, false, []);
    var t0 := EnrolledTables(s.t, n);
    var t1 := t0.(jobs := s.t.jobs[n := JobAt(n, JobRunning)]);
    var t2 := t1.(assessments := s.t.assessments[n := Assessment(AUTHORITY, Running, None)]);
    assert |s.workers| == n && s.t.now == 0;
    assert |Evaluated(s, n).workers| == n;
    hide Run, Apply, Ready, Enabled, WorkerTables, WorkerNext, EnrolledTables, PreparedTables, With, Evaluated, WorkerAt, JobAt;
    RunOfFour(With(s, t0, w1), Work(n, Start), Work(n, MarkAssessment(Running)), Work(n, BeginEvaluation),
              Work(n, MarkAttempt(AttemptRunning)));
    StartTables(s.t, n);
    QuietStep(s, t0, w1, Start, t1, w2);
    MarkTables(s.t, n);
    QuietStep(s, t1, w2, MarkAssessment(Running), t2, w2);
    BeginStep(s, t2, n);
    PreparedIs(s.t, n);
    QuietStep(Evaluated(s, n), t2, w3, MarkAttempt(AttemptRunning), PreparedTables(s.t, n), w3);
  }

  lemma EvidenceTables(t: Tables, n: nat)
    requires CoresOk(t.cores) && ManifestKey(n, n) !in t.manifests
    ensures var w := WorkerAt(n, Evaluating, false, []);
            var t' := PreparedTables(t, n).(cores := t.cores[CoreDigest(CORE) := CORE]);
            && Enabled(PreparedTables(t, n), w, PersistCore(CORE))
            && WorkerTables(PreparedTables(t, n), w, PersistCore(CORE)) == t'
            && WorkerNext(PreparedTables(t, n), w, PersistCore(CORE)) == w
            && Enabled(t', w, CheckNotFinalized)
            && WorkerTables(t', w, CheckNotFinalized) == t'
            && WorkerNext(t', w, CheckNotFinalized) == WorkerAt(n, Evaluating, true, [])
  {
    hide JobAt;
    if CoreDigest(CORE) in t.cores { assert t.cores[CoreDigest(CORE) := CORE] == t.cores; }
  }

  lemma AttachTables(t: Tables, n: nat)
    requires forall k :: k in t.links ==> k.assessmentId != n
    ensures var w := WorkerAt(n, Evaluating, true, []);
            var t' := PreparedTables(t, n).(cores := t.cores[CoreDigest(CORE) := CORE]);
            && Enabled(t', w, AttachLink(CORE))
            && WorkerTables(t', w, AttachLink(CORE)) == LinkedTables(t, n)
            && WorkerNext(t', w, AttachLink(CORE)) == WorkerAt(n, Evaluating, false, [ENTRY])
  {
    hide JobAt;
  }

  lemma FinalTables(t: Tables, n: nat)
    requires t.now == 0 && forall k :: k in t.links ==> k.assessmentId != n
    ensures CanComplete(LinkedTables(t, n), n, n, n, n, Some(1), 1)
    ensures CompleteAttempt(LinkedTables(t, n), n, n, n, n, Some(1), ManifestOfRun(n), 1) == DecidingTables(t, n)
  {
    var r, key := LinkedTables(t, n), LinkKey(n, n, Structure);
    assert key in LinksOf(r, n, n);
    assert LinksOf(r, n, n) - {key} + {key} == LinksOf(r, n, n);
    assert SelectLinks(r, n, n) == t.links[key := Link(CoreDigest(CORE), true)];
    assert r.jobs[n := JobAt(n, JobComplete)] == t.jobs[n := JobAt(n, JobComplete)];
    assert r.attempts[n := Attempt(n, AttemptComplete)] == t.attempts[n := Attempt(n, AttemptComplete)];
    assert r.assessments[n := Assessment(AUTHORITY, Deciding, None)] == t.assessments[n := Assessment(AUTHORITY, Deciding, None)];
    hide LinksOf, SelectLinks;
  }

  lemma FinalWorker(t: Tables, n: nat)
    requires t.now == 0 && forall k :: k in t.links ==> k.assessmentId != n
    ensures var w, op := WorkerAt(n, Evaluating, false, [ENTRY]), Finalize([ENTRY]);
            && Enabled(LinkedTables(t, n), w, op) && Finalizes(LinkedTables(t, n), w, op)
            && WorkerTables(LinkedTables(t, n), w, op) == DecidingTables(t, n) && WorkerNext(LinkedTables(t, n), w, op) == w
  {
    FinalTables(t, n);
    assert LinkedTables(t, n).assessments[n].authority == AUTHORITY;
    hide CanComplete, CompleteAttempt, LinkedTables, DecidingTables;
    assert ManifestFor(WorkerAt(n, Evaluating, false, [ENTRY]), AUTHORITY, [ENTRY]) == ManifestOfRun(n);
  }

  lemma FinalizeStep(s: State, n: nat)
    requires Ready(s, n)
    ensures Apply(With(Evaluated(s, n), LinkedTables(s.t, n), WorkerAt(n, Evaluating, false, [ENTRY])), Work(n, Finalize([ENTRY])))
            == Worked(s, n)
  {
    FinalWorker(s.t, n);
    assert |Evaluated(s, n).workers| == n;
    hide Apply, Ready, Enabled, Finalizes, WorkerTables, WorkerNext, LinkedTables, DecidingTables;
    LastWorkerSteps(Evaluated(s, n), LinkedTables(s.t, n), WorkerAt(n, Evaluating, false, [ENTRY]), Finalize([ENTRY]));
  }

  lemma Evidence(s: State, n: nat)
    requires Ready(s, n)
    ensures Run(With(Evaluated(s, n), PreparedTables(s.t, n), WorkerAt(n, Evaluating, false, [])), Evidencing(n)) == Worked(s, n)
  {
    var w0, w1, w2 := WorkerAt(n, Evaluating, false, []), WorkerAt(n, Evaluating, true, []), WorkerAt(n, Evaluating, false, [ENTRY]);
    var t0 := PreparedTables(s.t, n);
    var t1 := t0.(cores := s.t.cores[CoreDigest(CORE) := CORE]);
    var e := Evaluated(s, n);
    assert |e.workers| == n;
    EvidenceTables(s.t, n);
    AttachTables(s.t, n);
    FinalizeStep(s, n);
    hide Run, Apply, Ready, Enabled, WorkerTables, WorkerNext, PreparedTables, LinkedTables, DecidingTables, With, Evaluated, Worked,
      WorkerAt, JobAt;
    RunOfFour(With(e, t0, w0), Work(n, PersistCore(CORE)), Work(n, CheckNotFinalized), Work(n, AttachLink(CORE)),
              Work(n, Finalize([ENTRY])));
    QuietStep(e, t0, w0, PersistCore(CORE), t1, w0);
    QuietStep(e, t1, w0, CheckNotFinalized, t1, w1);
    QuietStep(e, t1, w1, AttachLink(CORE), LinkedTables(s.t, n), w2);
  }

  // ---- issuers ----------------------------------------------------------------------------

  /** A state with one issuer, of assessment n, put at pc. */
  ghost function Asking(s: State, pid: nat, n: nat, pc: IssuerPc): State
    requires pid < |s.issuers|
  {
    s.(issuers := s.issuers[pid := Issuer(n, 0, pc)])
  }

  lemma IssuesUnfold(s: State, pid: nat, k: nat)
    requires k > 0
    ensures Run(s, Issues(pid, k)) == Run(Apply(s, Issue(pid)), Issues(pid, k - 1))
  {
    hide Apply;
    assert Issues(pid, k)[1..] == Issues(pid, k - 1);
  }

  /** A read changes nothing but what the issuer knows. */
  lemma QuietIssue(s: State, pid: nat, n: nat, pc: IssuerPc, k: nat)
    requires pid < |s.issuers| && k > 0 && !pc.AtSelect? && !pc.AtPersist? && !pc.AtRefused?
    ensures Run(Asking(s, pid, n, pc), Issues(pid, k)) == Run(Asking(s, pid, n, IssuerNext(s.t, Issuer(n, 0, pc))), Issues(pid, k - 1))
  {
    hide IssuerNext, Run, Issues;
    var q := Issuer(n, 0, IssuerNext(s.t, Issuer(n, 0, pc)));
    IssuesUnfold(Asking(s, pid, n, pc), pid, k);
    assert Asking(s, pid, n, pc).issuers[pid := q] == s.issuers[pid := q];
    assert IssueStep(Asking(s, pid, n, pc), pid) == Asking(s, pid, n, q.pc);
  }

  /** What an issuer of assessment n reads before it comes to the manifest. */
  ghost predicate Listed(t: Tables, n: nat, row: Assessment) {
    && SelectedAttempts(t, n) == {n}
    && n in t.assessments && t.assessments[n] == row && row.authority == AUTHORITY
    && n in t.attempts && t.attempts[n] == Attempt(n, AttemptComplete)
    && t.profiles == map[SnapshotKey(0, 0) := PROFILE] && t.policies == map[SnapshotKey(0, 0) := 0] && t.contracts == map[0 := 0]
  }

  const DECIDING := Assessment(AUTHORITY, Deciding, None)

  /** What it finds once the worker is through. */
  ghost predicate Found(t: Tables, n: nat) {
    && n !in t.decisions && Listed(t, n, DECIDING)
    && ManifestKey(n, n) in t.manifests && t.manifests[ManifestKey(n, n)] == ManifestOfRun(n)
    && CoreDigest(CORE) in t.cores && t.cores[CoreDigest(CORE)] == CORE
  }

  lemma SelectStep(s: State, pid: nat, n: nat, k: nat)
    requires pid < |s.issuers| && SelectedAttempts(s.t, n) == {n} && k > 0
    requires n in s.chosen ==> s.chosen[n] == n
    ensures Run(Asking(s, pid, n, AtSelect), Issues(pid, k))
            == Run(Asking(s.(chosen := s.chosen[n := n]), pid, n, AtAssessment(n)), Issues(pid, k - 1))
  {
    hide Run, Issues, SelectedAttempts;
    var q := Issuer(n, 0, AtAssessment(n));
    IssuesUnfold(Asking(s, pid, n, AtSelect), pid, k);
    assert Asking(s, pid, n, AtSelect).issuers[pid := q] == s.issuers[pid := q];
    assert Only({n}) == n;
    assert IssuerNext(s.t, Issuer(n, 0, AtSelect)) == AtAssessment(n);
    assert n in s.chosen ==> s.chosen[n := n] == s.chosen;
    hide IssuerNext;
    assert IssueStep(Asking(s, pid, n, AtSelect), pid) == Asking(s.(chosen := s.chosen[n := n]), pid, n, AtAssessment(n));
  }

  lemma RowReads(s: State, pid: nat, n: nat, row: Assessment, k: nat)
    requires pid < |s.issuers| && Listed(s.t, n, row) && k >= 4
    ensures Run(Asking(s, pid, n, AtAssessment(n)), Issues(pid, k))
            == Run(Asking(s, pid, n, AtContract(n, row, Attempt(n, AttemptComplete), PROFILE, 0)), Issues(pid, k - 4))
  {
    var attempt := Attempt(n, AttemptComplete);
    hide Run, Asking, Issues, SelectedAttempts;
    QuietIssue(s, pid, n, AtAssessment(n), k);
    QuietIssue(s, pid, n, AtAttempt(n, row), k - 1);
    QuietIssue(s, pid, n, AtProfile(n, row, attempt), k - 2);
    QuietIssue(s, pid, n, AtPolicy(n, row, attempt, PROFILE), k - 3);
  }

  lemma ManifestReads(s: State, pid: nat, n: nat, k: nat)
    requires pid < |s.issuers| && Found(s.t, n) && k >= 2
    ensures Run(Asking(s, pid, n, AtContract(n, DECIDING, Attempt(n, AttemptComplete), PROFILE, 0)), Issues(pid, k))
            == Run(Asking(s, pid, n, AtEvidence(n, AUTHORITY, PROFILE, 0, ManifestOfRun(n), map[], 0)), Issues(pid, k - 2))
  {
    hide Run, Asking, Issues, SelectedAttempts;
    QuietIssue(s, pid, n, AtContract(n, DECIDING, Attempt(n, AttemptComplete), PROFILE, 0), k);
    QuietIssue(s, pid, n, AtManifest(n, AUTHORITY, PROFILE, 0), k - 1);
  }

  lemma EvidenceReads(s: State, pid: nat, n: nat, k: nat)
    requires pid < |s.issuers| && Found(s.t, n) && k >= 2
    ensures Run(Asking(s, pid, n, AtEvidence(n, AUTHORITY, PROFILE, 0, ManifestOfRun(n), map[], 0)), Issues(pid, k))
            == Run(Asking(s, pid, n, AtPersist(n, DECISION)), Issues(pid, k - 2))
  {
    var evidence := map[Structure := CORE];
    hide Run, Asking, Issues, SelectedAttempts;
    QuietIssue(s, pid, n, AtEvidence(n, AUTHORITY, PROFILE, 0, ManifestOfRun(n), map[], 0), k);
    assert Gather(s.t, BODY, Structure, map[]) == evidence;
    assert PROFILE.validatorSet[..0] == [];
    assert Weigh(PROFILE.validatorSet, evidence, AUTHORITY) == Reasons({});
    QuietIssue(s, pid, n, AtEvidence(n, AUTHORITY, PROFILE, 0, ManifestOfRun(n), evidence, 1), k - 1);
  }

  lemma PersistLast(s: State, pid: nat, n: nat)
    requires pid < |s.issuers|
    ensures var p := Issuer(n, 0, AtPersist(n, DECISION));
            Run(Asking(s, pid, n, p.pc), Issues(pid, 1))
            == Asking(s.(t := PersistDecision(s.t, n, Sign(p, DECISION))), pid, n, PersistNext(s.t, p, DECISION))
  {
    var p := Issuer(n, 0, AtPersist(n, DECISION));
    var q := Issuer(n, 0, PersistNext(s.t, p, DECISION));
    IssuesUnfold(Asking(s, pid, n, p.pc), pid, 1);
    assert Asking(s, pid, n, p.pc).issuers[pid := q] == s.issuers[pid := q];
    hide PersistDecision, PersistNext;
  }

  lemma StartFinds(t: Tables, n: nat)
    requires Found(t, n)
    ensures IssuerNext(t, Issuer(n, 0, AtStart)) == AtSelect && SelectedAttempts(t, n) == {n} && Listed(t, n, DECIDING)
  {
    hide SelectedAttempts;
  }

  /** From the first read to the signature. */
  lemma ReadsToTheDecision(s: State, pid: nat, n: nat)
    requires pid < |s.issuers| && Found(s.t, n) && n !in s.chosen
    ensures Run(Asking(s, pid, n, AtStart), Issues(pid, 11))
            == Run(Asking(s.(chosen := s.chosen[n := n]), pid, n, AtPersist(n, DECISION)), Issues(pid, 1))
  {
    hide Run, Issues, Asking, IssuerNext, SelectedAttempts, Found, Listed;
    var s' := s.(chosen := s.chosen[n := n]);
    StartFinds(s.t, n);
    QuietIssue(s, pid, n, AtStart, 11);
    SelectStep(s, pid, n, 10);
    RowReads(s', pid, n, DECIDING, 9);
    ManifestReads(s', pid, n, 5);
    EvidenceReads(s', pid, n, 3);
  }

  ghost function Outcome(s: State, n: nat): State {
    var p := Issuer(n, 0, AtPersist(n, DECISION));
    s.(t := PersistDecision(s.t, n, Sign(p, DECISION)), chosen := s.chosen[n := n],
       issuers := s.issuers + [Issuer(n, 0, PersistNext(s.t, p, DECISION))])
  }

  lemma NewIssuerAsks(s: State, n: nat, k: nat)
    ensures var s1 := s.(issuers := s.issuers + [Issuer(n, 0, AtStart)]);
            Run(s, [NewIssuer(n, 0)] + Issues(|s.issuers|, k)) == Run(Asking(s1, |s.issuers|, n, AtStart), Issues(|s.issuers|, k))
  {
    var s1 := s.(issuers := s.issuers + [Issuer(n, 0, AtStart)]);
    assert s1.issuers[|s.issuers| := Issuer(n, 0, AtStart)] == s1.issuers;
    hide Issues;
    assert ([NewIssuer(n, 0)] + Issues(|s.issuers|, k))[1..] == Issues(|s.issuers|, k);
  }

  /** A new issuer from its first read to its last. */
  lemma Issued(s: State, n: nat)
    requires Found(s.t, n) && n !in s.chosen
    ensures Run(s, [NewIssuer(n, 0)] + Issues(|s.issuers|, 11)) == Outcome(s, n)
  {
    hide Run, Issues, PersistDecision, PersistNext, Found;
    var pid := |s.issuers|;
    var s1 := s.(issuers := s.issuers + [Issuer(n, 0, AtStart)]);
    NewIssuerAsks(s, n, 11);
    ReadsToTheDecision(s1, pid, n);
    PersistLast(s1.(chosen := s.chosen[n := n]), pid, n);
  }

  lemma WorkerLeavesFound(s: State, n: nat)
    requires Ready(s, n)
    ensures Found(Worked(s, n).t, n) && |Worked(s, n).issuers| == n && n !in Worked(s, n).chosen
    ensures Worked(s, n).t.decisions == s.t.decisions
  {
    assert LinkKey(n, n, Structure) in Worked(s, n).t.links;
  }

  lemma WorkerFinishes(s: State, n: nat)
    requires Ready(s, n)
    ensures Run(s, Enrolment(n) + (Preparation(n) + Evidencing(n))) == Worked(s, n)
  {
    hide *;
    Enrol(s, n);
    Prepare(s, n);
    Evidence(s, n);
    RunSplits(s, Enrolment(n), Preparation(n) + Evidencing(n));
    RunSplits(Run(s, Enrolment(n)), Preparation(n), Evidencing(n));
  }

  const ISSUED := IssuedDecision(DECISION, DecisionDigest(DECISION), 0)

  /** Before the first of two assessments: only the snapshots are there. */
  ghost predicate Fresh(s: State) {
    && Ready(s, 0) && s.t.decisions == map[] && s.t.assessments == map[] && s.issuers == []
    && s.t.attempts == map[] && s.t.jobs == map[] && s.t.links == map[] && s.t.manifests == map[] && s.chosen == map[]
  }

  lemma SnapshotsAreReady()
    ensures Fresh(Run(START, SNAPSHOTS)) && Ready(Run(START, SNAPSHOTS), 0)
  {
    RunOfThree(START, PutProfile(SnapshotKey(0, 0), PROFILE), PutPolicy(SnapshotKey(0, 0), 0), PutContract(0, 0));
  }
}
