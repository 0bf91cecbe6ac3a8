/** Issuers that overlap with a decision: who can still turn a decided assessment into an error. */
module LateIssuers {
  import opened Wrappers
  import opened EvidenceRecords
  import opened DecisionRules
  import opened GovernanceTables
  import opened TableInvariants
  import opened GovernanceProtocol
  import opened GovernanceSafety
  import opened GovernanceTheorems
  import opened AssessmentRuns

  // ---- the statements that write the error ----------------------------------------------------

  /** An issuer that was refused, or a worker process, stale or not, that reports an error. */
  predicate WritesError(s: State, e: Event, assessmentId: Id) {
    || (e.Issue? && e.pid < |s.issuers| && s.issuers[e.pid].assessmentId == assessmentId && s.issuers[e.pid].pc.AtRefused?)
    || (e.Work? && e.pid < |s.workers| && s.workers[e.pid].assessmentId == assessmentId
        && e.op == MarkAssessment(Error) && Enabled(s.t, s.workers[e.pid], e.op))
  }

  predicate InError(t: Tables, assessmentId: Id) {
    assessmentId in t.assessments && t.assessments[assessmentId].status == Error
  }

  lemma WorkerLeavesStatus(t: Tables, w: Worker, op: WorkerOp)
    requires !op.MarkAssessment? && !op.Finalize?
    ensures WorkerTables(t, w, op).assessments == t.assessments
  {
    hide HoldsLease, CanCancel, CanStart;
  }

  lemma CompletionIsNoError(t: Tables, w: Worker, op: WorkerOp, assessmentId: Id)
    requires op.Finalize? && assessmentId in t.assessments && !InError(t, assessmentId)
    ensures !InError(WorkerTables(t, w, op), assessmentId)
  {
    hide CanComplete, SelectLinks, ManifestFor;
  }

  lemma MarkSetsStatus(t: Tables, w: Worker, op: WorkerOp)
    requires op.MarkAssessment?
    ensures WorkerTables(t, w, op) == SetAssessment(t, w.assessmentId, op.assessmentStatus)
  {
    hide SetAssessment;
  }

  lemma WorkStepTables(s: State, pid: nat, op: WorkerOp)
    ensures WorkStep(s, pid, op).t ==
              if pid < |s.workers| && Enabled(s.t, s.workers[pid], op) then WorkerTables(s.t, s.workers[pid], op) else s.t
  {
    hide WorkerTables, Enabled, WorkerNext, Finalizes;
  }

  lemma SetTurnsError(t: Tables, assessmentId: Id, status: AssessmentStatus, other: Id)
    requires other in t.assessments && !InError(t, other)
    ensures InError(SetAssessment(t, assessmentId, status), other) <==> assessmentId == other && status == Error
  {
    var t' := SetAssessment(t, assessmentId, status);
    if assessmentId == other {
      assert t'.assessments[other] == t.assessments[other].(status := status);
    } else {
      assert other in t'.assessments && t'.assessments[other] == t.assessments[other];
    }
    hide SetAssessment;
  }

  lemma WorkTurnsError(s: State, pid: nat, op: WorkerOp, assessmentId: Id)
    requires assessmentId in s.t.assessments && !InError(s.t, assessmentId)
    ensures InError(WorkStep(s, pid, op).t, assessmentId) <==> WritesError(s, Work(pid, op), assessmentId)
  {
    hide WorkStep, WorkerTables, Enabled, SetAssessment;
    WorkStepTables(s, pid, op);
    if pid < |s.workers| && Enabled(s.t, s.workers[pid], op) {
      var w := s.workers[pid];
      if op.MarkAssessment? {
        MarkSetsStatus(s.t, w, op);
        SetTurnsError(s.t, w.assessmentId, op.assessmentStatus, assessmentId);
      } else if op.Finalize? {
        CompletionIsNoError(s.t, w, op, assessmentId);
      } else {
        WorkerLeavesStatus(s.t, w, op);
      }
    }
  }

  lemma PersistIsNoError(t: Tables, assessmentId: Id, d: IssuedDecision, other: Id)
    requires other in t.assessments && !InError(t, other)
    ensures !InError(PersistDecision(t, assessmentId, d), other)
  {
    hide PersistOutcomeOf;
  }

  lemma ReadsWriteNothing(t: Tables, p: Issuer)
    requires !p.pc.AtPersist?
    ensures IssuerTables(t, p) == if p.pc.AtRefused? then SetAssessment(t, p.assessmentId, Error) else t
  {
    hide SetAssessment;
  }

  lemma IssueStepTables(s: State, pid: nat)
    ensures IssueStep(s, pid).t == if pid < |s.issuers| then IssuerTables(s.t, s.issuers[pid]) else s.t
  {
    hide IssuerTables, IssuerNext, Chosen;
  }

  lemma IssueTurnsError(s: State, pid: nat, assessmentId: Id)
    requires assessmentId in s.t.assessments && !InError(s.t, assessmentId)
    ensures InError(IssueStep(s, pid).t, assessmentId) <==> WritesError(s, Issue(pid), assessmentId)
  {
    hide IssueStep, IssuerTables, SetAssessment, PersistDecision, Sign, IssuerNext;
    IssueStepTables(s, pid);
    if pid < |s.issuers| {
      var p := s.issuers[pid];
      if p.pc.AtPersist? {
        PersistStep(s.t, p);
        PersistIsNoError(s.t, p.assessmentId, Sign(p, p.pc.core), assessmentId);
      } else {
        ReadsWriteNothing(s.t, p);
        SetTurnsError(s.t, p.assessmentId, Error, assessmentId);
      }
    }
  }

  /** No fence protects a decided assessment: its status turns to error exactly by these writes. */
  lemma TurnsErrorExactlyWhen(s: State, e: Event, assessmentId: Id)
    requires assessmentId in s.t.assessments && !InError(s.t, assessmentId)
    ensures InError(Apply(s, e).t, assessmentId) <==> WritesError(s, e, assessmentId)
  {
    hide WorkStep, IssueStep, TakeStep, Enabled, Claim, HoldsLease, CanCancel;
    match e
    case Work(pid, op) => WorkTurnsError(s, pid, op, assessmentId);
    case Issue(pid) => IssueTurnsError(s, pid, assessmentId);
    case TakeJob(jobId, workerId, leaseSeconds) => TakingLeavesAssessments(s, jobId, workerId, leaseSeconds);
    case _ =>
  }

  lemma TakingLeavesAssessments(s: State, jobId: Id, workerId: Id, leaseSeconds: int)
    ensures TakeStep(s, jobId, workerId, leaseSeconds).t.assessments == s.t.assessments
  {
  }

  // ---- issuers that start after the decision ---------------------------------------------------

  /** An issuer that has not read anything yet, or has returned. */
  predicate Unread(s: State, pid: nat, assessmentId: Id) {
    pid < |s.issuers| && s.issuers[pid].assessmentId == assessmentId ==>
      s.issuers[pid].pc.AtStart? || s.issuers[pid].pc.Returned?
  }

  lemma EventKeepsUnread(s: State, e: Event, pid: nat, assessmentId: Id)
    requires assessmentId in s.t.decisions && Unread(s, pid, assessmentId)
    ensures Unread(Apply(s, e), pid, assessmentId)
  {
    hide WorkerTables, IssuerTables, Chosen, Enabled, Finalizes, SelectedAttempts;
  }

  lemma {:induction false} StaysUnread(s: State, events: seq<Event>, pid: nat, assessmentId: Id)
    requires Inv(s) && assessmentId in s.t.decisions && Unread(s, pid, assessmentId)
    ensures Unread(Run(s, events), pid, assessmentId)
    decreases |events|
  {
    hide Inv, Apply, Unread;
    if events != [] {
      EventKeeps(s, events[0]);
      EventKeepsUnread(s, events[0], pid, assessmentId);
      StaysUnread(Apply(s, events[0]), events[1..], pid, assessmentId);
    }
  }

  /** Once an assessment has its decision, an issuer that had not read anything by then never
      gets further than returning it, and never writes the error. */
  lemma LateIssuersReturn(before: seq<Event>, after: seq<Event>, pid: nat, assessmentId: Id)
    requires assessmentId in Run(START, before).t.decisions && Unread(Run(START, before), pid, assessmentId)
    ensures Unread(Run(START, before + after), pid, assessmentId)
    ensures !WritesError(Run(START, before + after), Issue(pid), assessmentId)
  {
    Reachable(before);
    RunSplits(START, before, after);
    hide Run, Inv;
    StaysUnread(Run(START, before), after, pid, assessmentId);
  }

  // ---- issuers that read the row after it had left `deciding` ------------------------------------

  /** The row an issuer goes by was not deciding when it was read, or the issuer has given up. */
  predicate GoesByStaleRow(p: Issuer) {
    match p.pc
    case AtAttempt(_, row) => !row.status.Deciding?
    case AtProfile(_, row, _) => !row.status.Deciding?
    case AtPolicy(_, row, _, _) => !row.status.Deciding?
    case AtContract(_, row, _, _, _) => !row.status.Deciding?
    case AtRefused(_) => true
    case Thrown => true
    case _ => false
  }

  lemma EventKeepsStale(s: State, e: Event, pid: nat)
    requires pid < |s.issuers| && GoesByStaleRow(s.issuers[pid])
    ensures pid < |Apply(s, e).issuers| && GoesByStaleRow(Apply(s, e).issuers[pid])
  {
    hide WorkerTables, IssuerTables, Chosen, Enabled, Finalizes, SelectedAttempts, AuthorityVerified;
  }

  /** Such an issuer never signs and never returns a decision, whatever is written meanwhile: it
      is refused or throws. */
  lemma {:induction false} StaleRowNeverSigns(s: State, events: seq<Event>, pid: nat)
    requires pid < |s.issuers| && GoesByStaleRow(s.issuers[pid])
    ensures pid < |Run(s, events).issuers| && GoesByStaleRow(Run(s, events).issuers[pid])
    decreases |events|
  {
    hide Apply, GoesByStaleRow;
    if events != [] {
      EventKeepsStale(s, events[0], pid);
      StaleRowNeverSigns(Apply(s, events[0]), events[1..], pid);
    }
  }

  // ---- a decided assessment in error --------------------------------------------------------------

  const DECIDED := Assessment(AUTHORITY, Complete, Some(ISSUED.decisionHash))

  lemma RefusedLast(s: State, pid: nat, n: nat, error: IssueError)
    requires pid < |s.issuers|
    ensures Run(Asking(s, pid, n, AtRefused(error)), Issues(pid, 1)) == Asking(s.(t := SetAssessment(s.t, n, Error)), pid, n, Thrown)
  {
    var q := Issuer(n, 0, Thrown);
    IssuesUnfold(Asking(s, pid, n, AtRefused(error)), pid, 1);
    assert Asking(s, pid, n, AtRefused(error)).issuers[pid := q] == s.issuers[pid := q];
    hide SetAssessment;
  }

  lemma LateReaderIsRefused(t: Tables, n: nat)
    requires Listed(t, n, DECIDED)
    ensures SelectedAttempts(t, n) == {n}
    ensures IssuerNext(t, Issuer(n, 0, AtContract(n, DECIDED, Attempt(n, AttemptComplete), PROFILE, 0))) == AtRefused(NotComplete)
  {
    hide SelectedAttempts;
  }

  /** An issuer that had passed its first read goes on after the decision. */
  lemma LateReader(s: State, pid: nat, n: nat)
    requires pid < |s.issuers| && Listed(s.t, n, DECIDED) && n in s.chosen && s.chosen[n] == n
    ensures Run(Asking(s, pid, n, AtSelect), Issues(pid, 7)) == Asking(s.(t := SetAssessment(s.t, n, Error)), pid, n, Thrown)
  {
    var attempt := Attempt(n, AttemptComplete);
    assert s.(chosen := s.chosen[n := n]) == s by { assert s.chosen[n := n] == s.chosen; }
    LateReaderIsRefused(s.t, n);
    hide Listed, Run, Issues, SelectedAttempts, Asking, IssuerNext, SetAssessment;
    SelectStep(s, pid, n, 7);
    RowReads(s, pid, n, DECIDED, 6);
    QuietIssue(s, pid, n, AtContract(n, DECIDED, attempt, PROFILE, 0), 2);
    RefusedLast(s, pid, n, NotComplete);
  }

  /** Two issuers of one assessment: the first makes its first read, the second runs from its
      first read to the stored decision, then the first goes on. */
  function Overtaken(): seq<Event> {
    (Enrolment(0) + (Preparation(0) + Evidencing(0)))
    + (([NewIssuer(0, 0)] + Issues(0, 1)) + (([NewIssuer(0, 0)] + Issues(1, 11)) + Issues(0, 7)))
  }

  ghost function FirstRead(w: State): State {
    w.(issuers := w.issuers + [Issuer(0, 0, AtSelect)])
  }

  lemma FirstReads(w: State)
    requires 0 !in w.t.decisions && w.issuers == []
    ensures Run(w, [NewIssuer(0, 0)] + Issues(0, 1)) == FirstRead(w)
  {
    var s1 := w.(issuers := w.issuers + [Issuer(0, 0, AtStart)]);
    NewIssuerAsks(w, 0, 1);
    QuietIssue(s1, 0, 0, AtStart, 1);
    assert IssuerNext(w.t, Issuer(0, 0, AtStart)) == AtSelect;
    assert Asking(s1, 0, 0, AtSelect).issuers == FirstRead(w).issuers;
    assert Run(FirstRead(w), []) == FirstRead(w);
    hide Run, IssuerNext;
  }

  lemma OvertakerPersists(t: Tables)
    requires t.decisions == map[] && t.assessments == map[0 := DECIDING]
    ensures PersistNext(t, Issuer(0, 0, AtPersist(0, DECISION)), DECISION) == Returned(ISSUED)
    ensures PersistDecision(t, 0, ISSUED) == t.(decisions := map[0 := ISSUED], assessments := map[0 := DECIDED])
  {
    assert PersistOutcomeOf(t, 0, ISSUED) == Stored(ISSUED);
    assert t.decisions[0 := ISSUED] == map[0 := ISSUED];
    assert t.assessments[0 := DECIDED] == map[0 := DECIDED];
    hide PersistOutcomeOf;
  }

  lemma OvertakerIsStored(w: State)
    requires Found(w.t, 0) && w.issuers == [] && w.t.decisions == map[] && w.t.assessments == map[0 := DECIDING]
    ensures var s := Outcome(FirstRead(w), 0);
            && s.issuers == [Issuer(0, 0, AtSelect), Issuer(0, 0, Returned(ISSUED))]
            && s.t.decisions == map[0 := ISSUED] && s.t.assessments == map[0 := DECIDED]
            && Listed(s.t, 0, DECIDED) && 0 in s.chosen && s.chosen[0] == 0
            && Asking(s, 0, 0, AtSelect) == s
  {
    hide SelectedAttempts, PersistNext, PersistDecision;
    OvertakerPersists(w.t);
    assert Sign(Issuer(0, 0, AtPersist(0, DECISION)), DECISION) == ISSUED;
    var s := Outcome(FirstRead(w), 0);
    SameLinksSameSelection(w.t, s.t, 0);
    assert s.issuers[0 := Issuer(0, 0, AtSelect)] == s.issuers;
  }

  lemma SameLinksSameSelection(t: Tables, t': Tables, assessmentId: Id)
    requires t'.links == t.links
    ensures SelectedAttempts(t', assessmentId) == SelectedAttempts(t, assessmentId)
  {
  }

  /** The decision is stored and returned to one issuer, and the assessment is in error by the other. */
  ghost predicate DecidedInError(s: State) {
    && s.issuers == [Issuer(0, 0, Thrown), Issuer(0, 0, Returned(ISSUED))]
    && s.t.decisions == map[0 := ISSUED]
    && s.t.assessments == map[0 := DECIDED.(status := Error)]
  }

  lemma OvertakenEnds(w: State)
    requires Found(w.t, 0) && w.issuers == [] && w.t.decisions == map[] && w.t.assessments == map[0 := DECIDING]
    ensures var s := Outcome(FirstRead(w), 0);
            DecidedInError(Asking(s.(t := SetAssessment(s.t, 0, Error)), 0, 0, Thrown))
  {
    OvertakerIsStored(w);
    hide Outcome, Found, Listed;
  }

  lemma OvertakenRun(w: State)
    requires Found(w.t, 0) && w.issuers == [] && w.t.decisions == map[] && w.t.assessments == map[0 := DECIDING] && 0 !in w.chosen
    ensures DecidedInError(Run(w, ([NewIssuer(0, 0)] + Issues(0, 1)) + (([NewIssuer(0, 0)] + Issues(1, 11)) + Issues(0, 7))))
  {
    hide Run, Issues, DecidedInError, Outcome, Asking, SetAssessment;
    var s := Outcome(FirstRead(w), 0);
    FirstReads(w);
    OvertakerIsStored(w);
    OvertakenEnds(w);
    RunSplits(w, [NewIssuer(0, 0)] + Issues(0, 1), ([NewIssuer(0, 0)] + Issues(1, 11)) + Issues(0, 7));
    RunSplits(FirstRead(w), [NewIssuer(0, 0)] + Issues(1, 11), Issues(0, 7));
    Issued(FirstRead(w), 0);
    LateReader(s, 0, 0);
  }

  /** An assessment with an issued decision can end in error. */
  lemma DecidedAssessmentEndsInError()
    ensures DecidedInError(Run(START, SNAPSHOTS + Overtaken()))
  {
    hide Run, DecidedInError, Ready, Found, Worked, Enrolment, Preparation, Evidencing, Issues;
    var s := Run(START, SNAPSHOTS);
    SnapshotsAreReady();
    FreshWorked(s);
    WorkerFinishes(s, 0);
    WorkerLeavesFound(s, 0);
    OvertakenRun(Worked(s, 0));
    RunSplits(START, SNAPSHOTS, Overtaken());
    RunSplits(s, Enrolment(0) + (Preparation(0) + Evidencing(0)),
              ([NewIssuer(0, 0)] + Issues(0, 1)) + (([NewIssuer(0, 0)] + Issues(1, 11)) + Issues(0, 7)));
  }

  lemma FreshWorked(s: State)
    requires Fresh(s)
    ensures var w := Worked(s, 0);
            w.issuers == [] && w.t.decisions == map[] && w.t.assessments == map[0 := DECIDING] && 0 !in w.chosen
  {
    hide Ready;
  }
}
