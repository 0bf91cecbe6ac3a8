/** The decision hash is unique over all assessments: what that means for an assessment whose
    decision another one already has. */
module DecisionUniqueness {
  import opened Wrappers
  import opened EvidenceRecords
  import opened DecisionRules
  import opened GovernanceTables
  import opened TableInvariants
  import opened GovernanceProtocol
  import opened GovernanceSafety
  import opened GovernanceTheorems
  import opened AssessmentRuns

  /** Some assessment has been issued this very decision. */
  ghost predicate CoreIssued(decisions: map<Id, IssuedDecision>, core: DecisionCore) {
    exists a :: a in decisions && decisions[a].core == core
  }

  lemma HashIssuedExactlyWhenCoreIs(t: Tables, chosen: map<Id, Id>, core: DecisionCore)
    requires DecisionsOk(t, chosen)
    ensures HashIssued(t.decisions, DecisionDigest(core)) <==> CoreIssued(t.decisions, core)
  {
    hide IsCanonical;
    if CoreIssued(t.decisions, core) {
      var a :| a in t.decisions && t.decisions[a].core == core;
      assert t.decisions[a].decisionHash == DecisionDigest(core);
    }
  }

  lemma PersistingIssuer(s: State, p: Issuer)
    requires DecisionsOk(s.t, s.chosen) && p.pc.AtPersist? && IsCanonical(s.t, s.chosen, p.assessmentId, p.pc.core)
    ensures p.assessmentId in s.t.assessments
    ensures IssuerNext(s.t, p).Returned? <==>
              || p.assessmentId in s.t.decisions
              || (s.t.assessments[p.assessmentId].status.Deciding? && !CoreIssued(s.t.decisions, p.pc.core))
    ensures IssuerNext(s.t, p).Returned? || (IssuerNext(s.t, p).Thrown? && IssuerTables(s.t, p) == s.t)
  {
    assert p.assessmentId in s.t.assessments;
    hide IsCanonical, IssuerNext, IssuerTables, DecisionsOk;
    PersistStep(s.t, p);
    assert IssuerOk(s.t, s.chosen, p);
    SignaturesAgree(s, p);
    HashIssuedExactlyWhenCoreIs(s.t, s.chosen, p.pc.core);
    hide HashIssued, CoreIssued;
  }

  lemma PersistedIsSigned(s: State, p: Issuer)
    requires DecisionsOk(s.t, s.chosen) && p.pc.AtPersist? && IsCanonical(s.t, s.chosen, p.assessmentId, p.pc.core)
    requires IssuerNext(s.t, p).Returned?
    ensures p.assessmentId in IssuerTables(s.t, p).decisions
    ensures IssuerTables(s.t, p).decisions[p.assessmentId].core == p.pc.core
  {
    hide IsCanonical, IssuerNext, IssuerTables;
    PersistStep(s.t, p);
    if p.assessmentId in s.t.decisions {
      CanonicalIsUnique(s.t, s.chosen, p.assessmentId, s.t.decisions[p.assessmentId].core, p.pc.core);
    }
    hide HashIssued;
  }

  /** An issuer that comes to persist gets a decision stored or returned if and only if its
      assessment has one already, or is deciding and no other assessment has the same one.
      Otherwise it throws and no table changes: the assessment stays as it is. */
  lemma StoredExactlyWhenNew(events: seq<Event>, pid: nat)
    requires pid < |Run(START, events).issuers| && Run(START, events).issuers[pid].pc.AtPersist?
    ensures var s := Run(START, events); var p := s.issuers[pid]; var s' := IssueStep(s, pid);
            && p.assessmentId in s.t.assessments
            && (s'.issuers[pid].pc.Returned? <==>
                  || p.assessmentId in s.t.decisions
                  || (s.t.assessments[p.assessmentId].status.Deciding? && !CoreIssued(s.t.decisions, p.pc.core)))
            && (s'.issuers[pid].pc.Returned? ==>
                  p.assessmentId in s'.t.decisions && s'.t.decisions[p.assessmentId].core == p.pc.core)
            && (!s'.issuers[pid].pc.Returned? ==> s'.issuers[pid].pc.Thrown? && s'.t == s.t)
  {
    hide Run;
    var s := Run(START, events);
    var p := s.issuers[pid];
    Reachable(events);
    assert IssuerOk(s.t, s.chosen, p);
    hide Inv, IssuerOk, IsCanonical, IssuerNext, IssuerTables, Chosen, CoreIssued, DecisionsOk;
    PersistingIssuer(s, p);
    if IssuerNext(s.t, p).Returned? { PersistedIsSigned(s, p); }
  }

  /** Two assessments get the same decision exactly when they bind the same subject, profile,
      policy and contract and their evidence manifests are the same. */
  lemma SameDecisionExactlyWhen(a: Authority, b: Authority, m: ManifestCore, n: ManifestCore, x: Id, y: Id)
    requires a.profileDigest.ProfileDigest? && b.profileDigest.ProfileDigest?
    ensures CanonicalDecision(a, m, x) == CanonicalDecision(b, n, y) <==>
              && m == n && x == y
              && a.subjectDigest == b.subjectDigest && a.executionContractHash == b.executionContractHash
              && a.profileKey == b.profileKey && a.profileDigest == b.profileDigest
              && a.policyKey == b.policyKey && a.policyDigest == b.policyDigest
  {
    hide ManifestReasons;
  }

  // ---- one subject assessed twice ------------------------------------------------------

  /** A worker takes the assessment to its manifest; then an issuer makes ten steps to the
      decision and one to persist it. */
  function Assessing(n: nat): seq<Event> {
    (Enrolment(n) + (Preparation(n) + Evidencing(n))) + ([NewIssuer(n, 0)] + Issues(n, 11))
  }

  lemma Assessed(s: State, n: nat)
    requires Ready(s, n)
    ensures Run(s, Assessing(n)) == Outcome(Worked(s, n), n)
  {
    hide Run, Ready, Found, Outcome, Enrolment, Preparation, Evidencing, Issues;
    WorkerFinishes(s, n);
    WorkerLeavesFound(s, n);
    hide Worked;
    Issued(Worked(s, n), n);
    RunSplits(s, Enrolment(n) + (Preparation(n) + Evidencing(n)), [NewIssuer(n, 0)] + Issues(n, 11));
  }

  ghost predicate FirstIssued(s: State) {
    && s.t.decisions == map[0 := ISSUED]
    && s.t.assessments == map[0 := Assessment(AUTHORITY, Complete, Some(ISSUED.decisionHash))]
    && s.issuers == [Issuer(0, 0, Returned(ISSUED))]
  }

  lemma FirstIsStored(s: State)
    requires Fresh(s)
    ensures FirstIssued(Outcome(Worked(s, 0), 0))
  {
    var w := Worked(s, 0);
    assert w.t.assessments == map[0 := Assessment(AUTHORITY, Deciding, None)] && w.t.decisions == map[] && w.issuers == [];
    hide Worked, Ready;
    assert PersistOutcomeOf(w.t, 0, ISSUED) == Stored(ISSUED);
    hide PersistOutcomeOf;
  }

  lemma ReadyForTheSecond(s: State)
    requires Fresh(s)
    ensures Ready(Outcome(Worked(s, 0), 0), 1)
  {
    FirstIsStored(s);
    hide PersistOutcomeOf, PersistNext;
  }

  /** What is left of the second assessment. */
  ghost predicate SecondRefused(s: State) {
    && s.issuers == [Issuer(0, 0, Returned(ISSUED)), Issuer(1, 0, Thrown)]
    && s.t.decisions == map[0 := ISSUED]
    && s.t.assessments == map[0 := Assessment(AUTHORITY, Complete, Some(ISSUED.decisionHash)), 1 := Assessment(AUTHORITY, Deciding, None)]
    && SelectedAttempts(s.t, 1) == {1} && 1 in s.t.attempts && s.t.attempts[1].status.AttemptComplete?
  }

  lemma SecondIsRefused(s: State)
    requires Ready(s, 1) && FirstIssued(s)
    ensures SecondRefused(Outcome(Worked(s, 1), 1))
  {
    var w := Worked(s, 1);
    WorkerLeavesFound(s, 1);
    assert w.t.assessments == s.t.assessments[1 := Assessment(AUTHORITY, Deciding, None)] && w.issuers == s.issuers;
    hide Worked, Ready, SelectedAttempts;
    assert 0 in w.t.decisions && w.t.decisions[0].decisionHash == ISSUED.decisionHash;
    assert PersistOutcomeOf(w.t, 1, ISSUED) == HashTaken;
    hide PersistOutcomeOf, HashIssued;
  }

  /** One subject assessed twice under the same profile, policy and contract with the same
      evidence: the first assessment is issued its decision, the issuer of the second ends with
      an error and the second assessment is left deciding, with a selected complete attempt. */
  lemma ReassessmentStaysDeciding()
    ensures SecondRefused(Run(START, SNAPSHOTS + (Assessing(0) + Assessing(1))))
  {
    var s0 := Run(START, SNAPSHOTS);
    var s1 := Outcome(Worked(s0, 0), 0);
    SnapshotsAreReady();
    hide *;
    RunSplits(START, SNAPSHOTS, Assessing(0) + Assessing(1));
    RunSplits(s0, Assessing(0), Assessing(1));
    Assessed(s0, 0);
    FirstIsStored(s0);
    ReadyForTheSecond(s0);
    Assessed(s1, 1);
    SecondIsRefused(s1);
  }
}
