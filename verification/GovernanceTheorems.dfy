/** The promises of the governance protocol, for every event sequence. */
module GovernanceTheorems {
  import opened Wrappers
  import opened EvidenceRecords
  import opened DecisionRules
  import opened GovernanceTables
  import opened TableInvariants
  import opened GovernanceProtocol
  import opened GovernanceSafety

  lemma Reachable(events: seq<Event>)
    ensures Inv(Run(START, events))
  {
    StartIsFine();
    RunKeeps(START, events);
  }

  lemma {:induction false} RunSplits(s: State, before: seq<Event>, after: seq<Event>)
    ensures Run(s, before + after) == Run(Run(s, before), after)
    decreases |before|
  {
    if before == [] {
      assert before + after == after;
    } else {
      assert (before + after)[1..] == before[1..] + after;
      RunSplits(Apply(s, before[0]), before[1..], after);
    }
  }

  // ---- leases -----------------------------------------------------------------------

  function Generation(t: Tables, jobId: Id): nat {
    if jobId in t.jobs then t.jobs[jobId].leaseGeneration else 0
  }

  predicate IsClaim(s: State, e: Event, jobId: Id) {
    e.TakeJob? && e.jobId == jobId && Claimable(s.t, jobId)
  }

  /** How often a run claimed a job. */
  ghost function Claims(s: State, events: seq<Event>, jobId: Id): nat
    decreases |events|
  {
    if events == [] then 0
    else (if IsClaim(s, events[0], jobId) then 1 else 0) + Claims(Apply(s, events[0]), events[1..], jobId)
  }

  lemma WorkKeepsGeneration(s: State, pid: nat, op: WorkerOp, jobId: Id)
    ensures Generation(WorkStep(s, pid, op).t, jobId) == Generation(s.t, jobId)
  {
  }

  lemma IssueKeepsGeneration(s: State, pid: nat, jobId: Id)
    ensures Generation(IssueStep(s, pid).t, jobId) == Generation(s.t, jobId)
  {
    hide IssuerNext, Chosen, IssuerTables;
    if pid < |s.issuers| { IssuersWriteNoManifest(s.t, s.issuers[pid]); }
  }

  lemma EventMovesGeneration(s: State, e: Event, jobId: Id)
    ensures Generation(Apply(s, e).t, jobId) == Generation(s.t, jobId) + if IsClaim(s, e, jobId) then 1 else 0
  {
    hide WorkStep, IssueStep;
    match e
    case Work(pid, op) => WorkKeepsGeneration(s, pid, op, jobId);
    case Issue(pid) => IssueKeepsGeneration(s, pid, jobId);
    case _ =>
  }

  /** The generation of a job is the number of times it was claimed, whatever else happened. */
  lemma {:induction false} GenerationCountsClaims(s: State, events: seq<Event>, jobId: Id)
    ensures Generation(Run(s, events).t, jobId) == Generation(s.t, jobId) + Claims(s, events, jobId)
    decreases |events|
  {
    if events != [] {
      EventMovesGeneration(s, events[0], jobId);
      GenerationCountsClaims(Apply(s, events[0]), events[1..], jobId);
    }
  }

  /** Nothing a holder of generation g can try is enabled. */
  ghost predicate LockedOut(t: Tables, jobId: Id, g: nat) {
    forall workerId ::
      && !HoldsLease(t, jobId, workerId, Some(g)) && !CanStart(t, jobId, workerId, Some(g))
      && !CanCancel(t, jobId, Some(workerId), Some(g))
  }

  /** Once a later generation is claimed no write of an earlier holder ever succeeds again. */
  lemma StaleHolderIsLockedOut(before: seq<Event>, after: seq<Event>, jobId: Id, g: nat)
    requires g < Generation(Run(START, before).t, jobId)
    ensures var t := Run(START, before + after).t;
            && LockedOut(t, jobId, g)
            && forall assessmentId, attemptId, workerId, n ::
                 !CanComplete(t, assessmentId, attemptId, jobId, workerId, Some(g), n)
  {
    Reachable(before);
    RunSplits(START, before, after);
    GenerationCountsClaims(Run(START, before), after, jobId);
  }

  /** At most one process can write under a job's lease at any time. */
  lemma OneHolder(events: seq<Event>, i: nat, k: nat)
    requires var s := Run(START, events);
             && i < |s.workers| && k < |s.workers| && s.workers[i].jobId == s.workers[k].jobId
             && HoldsLease(s.t, s.workers[i].jobId, s.workers[i].workerId, Some(s.workers[i].leaseGeneration))
             && HoldsLease(s.t, s.workers[k].jobId, s.workers[k].workerId, Some(s.workers[k].leaseGeneration))
    ensures i == k
  {
    Reachable(events);
    var s := Run(START, events);
    assert SameClaim(s.workers[i], s.workers[k]);
  }

  // ---- terminal jobs and manifests ------------------------------------------------------

  lemma TerminalJobsNeverChange(before: seq<Event>, after: seq<Event>, jobId: Id)
    requires jobId in Run(START, before).t.jobs && Terminal(Run(START, before).t.jobs[jobId].status)
    ensures jobId in Run(START, before + after).t.jobs
    ensures Run(START, before + after).t.jobs[jobId] == Run(START, before).t.jobs[jobId]
  {
    Reachable(before);
    RunSplits(START, before, after);
    RunKeeps(Run(START, before), after);
    assert JobExtends(Run(START, before).t.jobs[jobId], Run(Run(START, before), after).t.jobs[jobId]);
  }

  /** A manifest is written by the one completion of its attempt's job and never rewritten. */
  lemma ManifestIsWrittenOnce(before: seq<Event>, after: seq<Event>, key: ManifestKey)
    requires key in Run(START, before).t.manifests
    ensures var s := Run(START, before); var s' := Run(START, before + after);
            && key in s'.t.manifests && s'.t.manifests[key] == s.t.manifests[key]
            && key in s.finishers && s.finishers[key] in s'.t.jobs
            && s'.t.jobs[s.finishers[key]].attemptId == key.attemptId
            && s'.t.jobs[s.finishers[key]].assessmentId == key.assessmentId
            && s'.t.jobs[s.finishers[key]].status.JobComplete?
  {
    Reachable(before);
    RunSplits(START, before, after);
    RunKeeps(Run(START, before), after);
    var s := Run(START, before);
    TerminalJobsNeverChange(before, after, s.finishers[key]);
  }

  /** A completion that succeeds is the last one any process can make for the job. */
  lemma JobCompletesOnce(before: seq<Event>, pid: nat, op: WorkerOp, after: seq<Event>)
    requires var s := Run(START, before);
             pid < |s.workers| && Enabled(s.t, s.workers[pid], op) && Finalizes(s.t, s.workers[pid], op)
    ensures var w := Run(START, before).workers[pid];
            var t := Run(START, before + [Work(pid, op)] + after).t;
            && ManifestKey(w.assessmentId, w.attemptId) in t.manifests
            && forall assessmentId, attemptId, workerId, g, n :: !CanComplete(t, assessmentId, attemptId, w.jobId, workerId, g, n)
  {
    var s, w := Run(START, before), Run(START, before).workers[pid];
    RunSplits(START, before, [Work(pid, op)]);
    assert Run(s, [Work(pid, op)]) == Run(Apply(s, Work(pid, op)), []);
    var done := Run(START, before + [Work(pid, op)]);
    assert done == WorkStep(s, pid, op);
    TerminalJobsNeverChange(before + [Work(pid, op)], after, w.jobId);
    ManifestIsWrittenOnce(before + [Work(pid, op)], after, ManifestKey(w.assessmentId, w.attemptId));
  }

  /** The selected attempt of an assessment has a manifest, bound to it and naming stored cores,
      so an issuer that got that far is never refused over the manifest. */
  lemma ManifestIsNeverRefused(events: seq<Event>, pid: nat)
    requires pid < |Run(START, events).issuers| && Run(START, events).issuers[pid].pc.AtManifest?
    ensures var s := Run(START, events);
            && IssuerNext(s.t, s.issuers[pid]).AtEvidence?
            && AllStored(IssuerNext(s.t, s.issuers[pid]).manifest.core.entries, s.t.cores)
  {
    Reachable(events);
    var s := Run(START, events);
    var p := s.issuers[pid];
    assert IssuerOk(s.t, s.chosen, p);
    var key := ManifestKey(p.assessmentId, p.pc.attemptId);
    assert p.pc.attemptId in SelectedAttempts(s.t, p.assessmentId);
    assert Bound(key, s.t.manifests[key], s.t.assessments);
  }

  // ---- the evaluator ------------------------------------------------------------------------

  function CallsFor(evaluations: seq<Evaluation>, jobId: Id): seq<Evaluation> {
    if evaluations == [] then []
    else if evaluations[|evaluations| - 1].jobId == jobId
    then CallsFor(evaluations[..|evaluations| - 1], jobId) + [evaluations[|evaluations| - 1]]
    else CallsFor(evaluations[..|evaluations| - 1], jobId)
  }

  lemma {:induction false} CallsAreDistinct(workers: seq<Worker>, evaluations: seq<Evaluation>, jobId: Id)
    requires ClaimsDistinct(workers) && EvaluationsOk(workers, evaluations)
    ensures var calls := CallsFor(evaluations, jobId);
            && (forall c :: c in calls ==> c in evaluations && c.jobId == jobId && 1 <= c.leaseGeneration <= MAX_CLAIM_COUNT)
            && (forall i, k :: 0 <= i < k < |calls| ==> calls[i].leaseGeneration != calls[k].leaseGeneration)
  {
    if evaluations != [] {
      var front, last := evaluations[..|evaluations| - 1], evaluations[|evaluations| - 1];
      assert EvaluationsOk(workers, front);
      CallsAreDistinct(workers, front, jobId);
      assert EvaluationOk(workers, last);
      forall c | c in front && c.jobId == last.jobId ensures c.leaseGeneration != last.leaseGeneration {
        var i :| 0 <= i < |front| && front[i] == c;
        assert EvaluationOk(workers, evaluations[i]);
        assert c.leaseGeneration == last.leaseGeneration ==> SameClaim(workers[c.pid], workers[last.pid]);
      }
    }
  }

  lemma {:induction false} DistinctBelow(xs: seq<nat>, n: nat)
    requires forall x :: x in xs ==> 1 <= x <= n
    requires forall i, k :: 0 <= i < k < |xs| ==> xs[i] != xs[k]
    ensures |xs| <= n
  {
    if xs == [] {
    } else if n in xs {
      var i :| 0 <= i < |xs| && xs[i] == n;
      var rest := xs[..i] + xs[i + 1..];
      forall x | x in rest ensures 1 <= x <= n - 1 { assert x in xs; }
      DistinctBelow(rest, n - 1);
    } else {
      assert xs[0] in xs;
      DistinctBelow(xs, n - 1);
    }
  }

  /** Whatever crashes, expiries and reschedules happen, a job is evaluated at most three times. */
  lemma EvaluatedAtMostThrice(events: seq<Event>, jobId: Id)
    ensures |CallsFor(Run(START, events).evaluations, jobId)| <= 3
  {
    Reachable(events);
    var s := Run(START, events);
    CallsAreDistinct(s.workers, s.evaluations, jobId);
    var calls := CallsFor(s.evaluations, jobId);
    var generations := seq(|calls|, i requires 0 <= i < |calls| => calls[i].leaseGeneration);
    forall g | g in generations ensures 1 <= g <= 3 {
      var i :| 0 <= i < |generations| && generations[i] == g;
      assert calls[i] in calls;
    }
    DistinctBelow(generations, 3);
  }

  // ---- decisions --------------------------------------------------------------------------------

  /** An issued decision stays as it is, is signed over its own core, and names the manifest
      that the completion of a job wrote. */
  lemma DecisionIsFinal(before: seq<Event>, after: seq<Event>, assessmentId: Id)
    requires assessmentId in Run(START, before).t.decisions
    ensures var s := Run(START, before); var s' := Run(START, before + after);
            var d := s.t.decisions[assessmentId];
            && assessmentId in s'.t.decisions && s'.t.decisions[assessmentId] == d
            && d.decisionHash == DecisionDigest(d.core)
            && assessmentId in s.chosen
            && var key := ManifestKey(assessmentId, s.chosen[assessmentId]);
            && key in s'.t.manifests && d.core.evidenceManifestHash == ManifestDigest(s'.t.manifests[key].core)
            && key in s.finishers && s.finishers[key] in s'.t.jobs && s'.t.jobs[s.finishers[key]].status.JobComplete?
  {
    Reachable(before);
    RunSplits(START, before, after);
    RunKeeps(Run(START, before), after);
    var s := Run(START, before);
    assert IsCanonical(s.t, s.chosen, assessmentId, s.t.decisions[assessmentId].core);
    ManifestIsWrittenOnce(before, after, ManifestKey(assessmentId, s.chosen[assessmentId]));
  }

  /** Two issuers of one assessment that got as far as signing have the same core, however
      much was overwritten, linked or re-snapshotted between their reads. */
  lemma RacingIssuersAgree(events: seq<Event>, i: nat, k: nat)
    requires var issuers := Run(START, events).issuers;
             && i < |issuers| && k < |issuers| && issuers[i].assessmentId == issuers[k].assessmentId
             && issuers[i].pc.AtPersist? && issuers[k].pc.AtPersist?
    ensures Run(START, events).issuers[i].pc.core == Run(START, events).issuers[k].pc.core
  {
    Reachable(events);
    var s := Run(START, events);
    assert IssuerOk(s.t, s.chosen, s.issuers[i]) && IssuerOk(s.t, s.chosen, s.issuers[k]);
    CanonicalIsUnique(s.t, s.chosen, s.issuers[i].assessmentId, s.issuers[i].pc.core, s.issuers[k].pc.core);
  }

  lemma ChosenGrowsByEvent(s: State, e: Event)
    requires Inv(s)
    ensures Grows(s.chosen, Apply(s, e).chosen)
  {
    hide Inv, IssuerNext, IssuerTables;
    if e.Issue? && e.pid < |s.issuers| { ChosenGrows(s, s.issuers[e.pid]); }
  }

  lemma {:induction false} ChosenOnlyGrows(s: State, events: seq<Event>)
    requires Inv(s)
    ensures Grows(s.chosen, Run(s, events).chosen)
    decreases |events|
  {
    hide Inv, Apply;
    if events != [] {
      EventKeeps(s, events[0]);
      ChosenGrowsByEvent(s, events[0]);
      ChosenOnlyGrows(Apply(s, events[0]), events[1..]);
    }
  }

  lemma CanonicalForever(s: State, events: seq<Event>, assessmentId: Id, core: DecisionCore)
    requires Inv(s) && IsCanonical(s.t, s.chosen, assessmentId, core)
    ensures IsCanonical(Run(s, events).t, Run(s, events).chosen, assessmentId, core)
  {
    hide Inv, IsCanonical, Run;
    RunKeeps(s, events);
    ChosenOnlyGrows(s, events);
    CanonicalSurvives(s.t, Run(s, events).t, s.chosen, Run(s, events).chosen, assessmentId, core);
  }

  /** The same, across time: a core signed at any moment is the one stored at any later moment. */
  lemma SignedIsIssued(before: seq<Event>, after: seq<Event>, pid: nat)
    requires pid < |Run(START, before).issuers| && Run(START, before).issuers[pid].pc.AtPersist?
    ensures var p := Run(START, before).issuers[pid];
            var t := Run(START, before + after).t;
            p.assessmentId in t.decisions ==> t.decisions[p.assessmentId].core == p.pc.core
  {
    hide TablesOk, IsCanonical, Run;
    Reachable(before);
    Reachable(before + after);
    RunSplits(START, before, after);
    var s, s' := Run(START, before), Run(START, before + after);
    var p := s.issuers[pid];
    assert IssuerOk(s.t, s.chosen, p);
    CanonicalForever(s, after, p.assessmentId, p.pc.core);
    if p.assessmentId in s'.t.decisions {
      CanonicalIsUnique(s'.t, s'.chosen, p.assessmentId, p.pc.core, s'.t.decisions[p.assessmentId].core);
    }
  }

  /** The hash conflict of the decision transaction is unreachable, and what an issuer returned
      is the stored decision. */
  lemma NoDecisionConflict(events: seq<Event>, pid: nat)
    requires pid < |Run(START, events).issuers|
    ensures var s := Run(START, events); var p := s.issuers[pid];
            && !p.pc.Conflicted?
            && (p.pc.Returned? ==> p.assessmentId in s.t.decisions && s.t.decisions[p.assessmentId] == p.pc.decision)
  {
    Reachable(events);
    assert IssuerOk(Run(START, events).t, Run(START, events).chosen, Run(START, events).issuers[pid]);
  }
}
