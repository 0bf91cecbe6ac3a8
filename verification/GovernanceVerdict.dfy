/** What the governance protocol decides, in terms of the checks the evidence came from. */
module GovernanceVerdict {
  import opened Wrappers
  import opened EvidenceRecords
  import opened DecisionRules
  import opened CanonicalAdapter
  import opened GovernanceTables
  import opened TableInvariants
  import opened GovernanceProtocol
  import opened GovernanceSafety
  import opened GovernanceTheorems

  /** The manifest holds the records the adapter made of these checks for this authority. */
  ghost predicate ManifestOfChecks(m: ManifestCore, a: Authority, checks: seq<Check>, results: seq<EvidenceCore>) {
    && Evaluated(results, |CANONICAL_VALIDATORS|, checks, a.subjectDigest, a.profileDigest, a.executionContractHash)
    && ManifestOf(m, results)
  }

  lemma EvidenceIsComplete(t: Tables, chosen: map<Id, Id>, p: Issuer)
    requires IssuerOk(t, chosen, p) && p.pc.AtEvidence?
    ensures Gathered(p.pc.evidence, p.pc.manifest.core)
    ensures GatheredUpTo(p.pc.evidence, p.pc.manifest.core, p.pc.profile.validatorSet, p.pc.next)
  {
  }

  /** An issuer that has read the evidence of such a manifest is never refused, whatever other
      processes wrote between its reads: it signs, and it passes exactly when every check does. */
  lemma IssuerSignsTheChecks(events: seq<Event>, pid: nat, checks: seq<Check>, results: seq<EvidenceCore>)
    requires pid < |Run(START, events).issuers| && Run(START, events).issuers[pid].pc.AtEvidence?
    requires var pc := Run(START, events).issuers[pid].pc;
             && pc.next == |pc.profile.validatorSet| && NamesCanonical(pc.profile.validatorSet)
             && ManifestOfChecks(pc.manifest.core, pc.authority, checks, results)
    ensures var s := Run(START, events);
            var next := IssuerNext(s.t, s.issuers[pid]);
            next.AtPersist? && (next.core.decision == Passed <==> AllPass(checks, EXPECTED_CHECKS))
  {
    hide Run, IssuerOk, Gathered, NamesCanonical, AllPass, EXPECTED_CHECKS, Evaluated, ManifestOf, ManifestEvidence, CANONICAL_VALIDATORS;
    var s := Run(START, events);
    var pc := s.issuers[pid].pc;
    Reachable(events);
    assert IssuerOk(s.t, s.chosen, s.issuers[pid]);
    hide Inv, Weigh;
    EvidenceIsComplete(s.t, s.chosen, s.issuers[pid]);
    VerdictIsTheChecks(checks, pc.authority, results, pc.manifest.core, pc.profile.validatorSet, pc.evidence,
                       pc.manifest.bodyHash, pc.contractJson);
  }

  /** The profile names the canonical validators, each at least once, and nothing else. */
  ghost predicate CanonicalProfile(profileDigest: Digest) {
    && profileDigest.ProfileDigest?
    && (forall v :: v in profileDigest.validators ==> exists i :: 0 <= i < |CANONICAL_VALIDATORS| && CANONICAL_VALIDATORS[i].id == v.id)
    && (forall i :: 0 <= i < |CANONICAL_VALIDATORS| ==> HasValidator(profileDigest.validators, CANONICAL_VALIDATORS[i].id))
  }

  ghost predicate HasValidator(validators: multiset<ValidatorRef>, id: ValidatorId) {
    exists v :: v in validators && v.id == id
  }

  lemma ResultIsNamed(profileDigest: Digest, m: ManifestCore, a: Authority, checks: seq<Check>, results: seq<EvidenceCore>, i: nat)
    requires CanonicalProfile(profileDigest) && ManifestOfChecks(m, a, checks, results) && i < |results|
    ensures ReasonsOfCore(results[i]) <= ManifestReasons(profileDigest.validators, m)
  {
    hide Evaluated, ManifestOf, ManifestEvidence, CANONICAL_VALIDATORS, ReasonsOfCore;
    ResultCount(results, checks, a);
    ManifestAt(checks, a, results, m, i);
    assert HasValidator(profileDigest.validators, CANONICAL_VALIDATORS[i].id);
    var v :| v in profileDigest.validators && v.id == CANONICAL_VALIDATORS[i].id;
    assert ManifestEvidence(m, v.id) == Some(results[i]);
  }

  lemma NamedIsResult(profileDigest: Digest, m: ManifestCore, a: Authority, checks: seq<Check>, results: seq<EvidenceCore>, v: ValidatorRef)
    requires CanonicalProfile(profileDigest) && ManifestOfChecks(m, a, checks, results) && v in profileDigest.validators
    ensures ManifestEvidence(m, v.id).Some? && HasCore(results, ManifestEvidence(m, v.id).value)
  {
    hide Evaluated, ManifestOf, ManifestEvidence, CANONICAL_VALIDATORS;
    ResultCount(results, checks, a);
    var i :| 0 <= i < |CANONICAL_VALIDATORS| && CANONICAL_VALIDATORS[i].id == v.id;
    ManifestAt(checks, a, results, m, i);
    assert results[i] == ManifestEvidence(m, v.id).value;
  }

  lemma NoReasonExactlyWhenAllPass(profileDigest: Digest, m: ManifestCore, a: Authority, checks: seq<Check>, results: seq<EvidenceCore>)
    requires CanonicalProfile(profileDigest) && ManifestOfChecks(m, a, checks, results)
    ensures ManifestReasons(profileDigest.validators, m) == {} <==> AllPass(checks, EXPECTED_CHECKS)
  {
    hide Evaluated, ManifestOf, ManifestEvidence, AllPass, EXPECTED_CHECKS, CANONICAL_VALIDATORS;
    AllPassExactlyWhenChecksPass(results, checks, a.subjectDigest, a.profileDigest, a.executionContractHash);
    if i :| 0 <= i < |results| && results[i].status != PASS {
      ResultIsNamed(profileDigest, m, a, checks, results, i);
      var r := if results[i].status == FAIL then RequiredEvidenceFailed else RequiredEvidenceSkipped;
      assert r in ReasonsOfCore(results[i]);
    } else {
      forall v | v in profileDigest.validators
        ensures ManifestEvidence(m, v.id).Some? && ReasonsOfCore(ManifestEvidence(m, v.id).value) == {}
      {
        NamedIsResult(profileDigest, m, a, checks, results, v);
      }
    }
  }

  /** A stored decision passes exactly when every expected check was produced and passed,
      whichever issuer signed it and whatever ran beside it. */
  lemma StoredVerdictIsTheChecks(events: seq<Event>, assessmentId: Id, a: Authority, m: ManifestCore, checks: seq<Check>,
                                 results: seq<EvidenceCore>)
    requires var t := Run(START, events).t;
             && assessmentId in t.decisions && Authorized(t, assessmentId, a)
             && t.decisions[assessmentId].core.evidenceManifestHash == ManifestDigest(m)
    requires CanonicalProfile(a.profileDigest) && ManifestOfChecks(m, a, checks, results)
    ensures Run(START, events).t.decisions[assessmentId].core.decision == Passed <==> AllPass(checks, EXPECTED_CHECKS)
  {
    hide Run, AllPass, EXPECTED_CHECKS, ManifestOfChecks, CanonicalProfile, ManifestReasons;
    var s := Run(START, events);
    Reachable(events);
    assert IsCanonical(s.t, s.chosen, assessmentId, s.t.decisions[assessmentId].core);
    hide Inv;
    assert m == s.t.manifests[ManifestKey(assessmentId, s.chosen[assessmentId])].core;
    NoReasonExactlyWhenAllPass(a.profileDigest, m, a, checks, results);
  }

  // ---- from the worker's links to the verdict -------------------------------------------------

  function Entries(results: seq<EvidenceCore>): (r: seq<ManifestEntry>)
    ensures |r| == |results| && forall i :: 0 <= i < |results| ==> r[i] == EntryOf(results[i])
  {
    seq(|results|, i requires 0 <= i < |results| => EntryOf(results[i]))
  }

  ghost function AttachedBy(s: State, e: Event, pid: nat): seq<EvidenceCore> {
    if e.Work? && e.pid == pid && e.op.AttachLink? && pid < |s.workers| && Enabled(s.t, s.workers[pid], e.op) then [e.op.linked] else []
  }

  /** The cores a worker process has linked over a run, in order. */
  ghost function Attached(s: State, events: seq<Event>, pid: nat): seq<EvidenceCore>
    decreases |events|
  {
    if events == [] then [] else AttachedBy(s, events[0], pid) + Attached(Apply(s, events[0]), events[1..], pid)
  }

  ghost function EntriesAt(s: State, pid: nat): seq<ManifestEntry> {
    if pid < |s.workers| then s.workers[pid].entries else []
  }

  lemma WorkAttaches(s: State, e: Event, pid: nat)
    requires e.Work?
    ensures EntriesAt(Apply(s, e), pid) == EntriesAt(s, pid) + Entries(AttachedBy(s, e, pid))
  {
    hide Enabled, WorkerTables, Finalizes;
    if e.pid == pid && pid < |s.workers| && Enabled(s.t, s.workers[pid], e.op) {
      assert Apply(s, e).workers[pid] == WorkerNext(s.t, s.workers[pid], e.op);
    }
  }

  lemma EventAttaches(s: State, e: Event, pid: nat)
    ensures EntriesAt(Apply(s, e), pid) == EntriesAt(s, pid) + Entries(AttachedBy(s, e, pid))
  {
    hide IssuerTables, IssuerNext, Chosen, WorkStep, Claimable, Claim, CreateAssessment, CreateAttemptAndJob, CancelJob,
      UpsertProfile, UpsertPolicy, UpsertContract, Enabled;
    if e.Work? { WorkAttaches(s, e, pid); }
  }

  /** A worker's list of entries is what it linked, nothing else and nothing twice. */
  lemma {:induction false} EntriesAreAttached(s: State, events: seq<Event>, pid: nat)
    ensures EntriesAt(Run(s, events), pid) == EntriesAt(s, pid) + Entries(Attached(s, events, pid))
    decreases |events|
  {
    hide Apply, AttachedBy, EntriesAt;
    if events == [] {
      assert EntriesAt(s, pid) + [] == EntriesAt(s, pid);
    } else {
      EventAttaches(s, events[0], pid);
      EntriesAreAttached(Apply(s, events[0]), events[1..], pid);
      var first, rest := AttachedBy(s, events[0], pid), Attached(Apply(s, events[0]), events[1..], pid);
      assert Entries(first + rest) == Entries(first) + Entries(rest);
    }
  }

  lemma PermutedEntriesAreAManifest(m: ManifestCore, results: seq<EvidenceCore>)
    requires multiset(m.entries) == multiset(Entries(results))
    ensures ManifestOf(m, results)
  {
    hide EntryOf;
    forall e | e in m.entries
      ensures exists i :: 0 <= i < |results| && e == EntryOf(results[i])
    {
      assert e in multiset(Entries(results));
      var i :| 0 <= i < |results| && Entries(results)[i] == e;
    }
    forall i | 0 <= i < |results|
      ensures EntryOf(results[i]) in m.entries
    {
      assert Entries(results)[i] in multiset(m.entries);
    }
  }

  /** The completion of a worker that linked exactly the adapter's records writes their manifest. */
  lemma FinalizedManifest(t: Tables, w: Worker, sorted: seq<ManifestEntry>, checks: seq<Check>, results: seq<EvidenceCore>)
    requires Enabled(t, w, Finalize(sorted)) && Finalizes(t, w, Finalize(sorted)) && w.entries == Entries(results)
    requires var a := t.assessments[w.assessmentId].authority;
             Evaluated(results, |CANONICAL_VALIDATORS|, checks, a.subjectDigest, a.profileDigest, a.executionContractHash)
    ensures var t' := WorkerTables(t, w, Finalize(sorted));
            var key := ManifestKey(w.assessmentId, w.attemptId);
            && key in t'.manifests
            && ManifestOfChecks(t'.manifests[key].core, t.assessments[w.assessmentId].authority, checks, results)
  {
    hide Evaluated, CANONICAL_VALIDATORS, CanComplete, Allowed, SelectLinks;
    var m := ManifestFor(w, t.assessments[w.assessmentId].authority, sorted);
    PermutedEntriesAreAManifest(m.core, results);
    hide ManifestOf;
    assert WorkerTables(t, w, Finalize(sorted)).manifests[ManifestKey(w.assessmentId, w.attemptId)] == m;
  }

  lemma RunOfOne(s: State, e: Event)
    ensures Run(s, [e]) == Apply(s, e)
  {
    hide Apply;
    assert Run(s, [e]) == Run(Apply(s, e), []);
  }

  lemma AuthorityStays(before: seq<Event>, after: seq<Event>, assessmentId: Id, a: Authority)
    requires Authorized(Run(START, before).t, assessmentId, a)
    ensures Authorized(Run(START, before + after).t, assessmentId, a)
  {
    hide Run, Inv;
    Reachable(before);
    RunSplits(START, before, after);
    RunKeeps(Run(START, before), after);
  }

  lemma WorkerHasAttached(events: seq<Event>, pid: nat)
    requires pid < |Run(START, events).workers|
    ensures Run(START, events).workers[pid].entries == Entries(Attached(START, events, pid))
  {
    hide Run, Attached;
    EntriesAreAttached(START, events, pid);
    assert EntriesAt(START, pid) == [];
  }

  lemma FinalizeTables(s: State, pid: nat, sorted: seq<ManifestEntry>)
    requires pid < |s.workers| && Enabled(s.t, s.workers[pid], Finalize(sorted))
    ensures Apply(s, Work(pid, Finalize(sorted))).t == WorkerTables(s.t, s.workers[pid], Finalize(sorted))
  {
    hide Enabled, WorkerTables, WorkerNext, Finalizes;
  }

  /** What a worker writes when it completes, and that it stays. */
  lemma FinalizedStays(before: seq<Event>, pid: nat, sorted: seq<ManifestEntry>, after: seq<Event>, checks: seq<Check>)
    requires var s := Run(START, before);
             && pid < |s.workers| && Enabled(s.t, s.workers[pid], Finalize(sorted)) && Finalizes(s.t, s.workers[pid], Finalize(sorted))
             && var a := s.t.assessments[s.workers[pid].assessmentId].authority;
                Evaluated(Attached(START, before, pid), |CANONICAL_VALIDATORS|, checks,
                          a.subjectDigest, a.profileDigest, a.executionContractHash)
    ensures var s := Run(START, before);
            var w := s.workers[pid];
            var key := ManifestKey(w.assessmentId, w.attemptId);
            var t := Run(START, before + [Work(pid, Finalize(sorted))] + after).t;
            && key in t.manifests
            && ManifestOfChecks(t.manifests[key].core, s.t.assessments[w.assessmentId].authority, checks, Attached(START, before, pid))
  {
    hide Run, Attached, Evaluated, ManifestOfChecks, Finalizes, WorkerTables, CANONICAL_VALIDATORS, Apply, Allowed, EntriesAt;
    var s, e := Run(START, before), Work(pid, Finalize(sorted));
    var w := s.workers[pid];
    WorkerHasAttached(before, pid);
    FinalizeTables(s, pid, sorted);
    FinalizedManifest(s.t, w, sorted, checks, Attached(START, before, pid));
    RunSplits(START, before, [e]);
    RunOfOne(s, e);
    ManifestIsWrittenOnce(before + [e], after, ManifestKey(w.assessmentId, w.attemptId));
  }

  /** From checks to the stored verdict, for every run: a worker that linked exactly the adapter's records of some checks and
      completed decides what any decision over its manifest says, whenever it is issued and whoever issues it. */
  lemma ChecksDecideTheVerdict(before: seq<Event>, pid: nat, sorted: seq<ManifestEntry>, after: seq<Event>, checks: seq<Check>)
    requires var s := Run(START, before);
             && pid < |s.workers| && Enabled(s.t, s.workers[pid], Finalize(sorted)) && Finalizes(s.t, s.workers[pid], Finalize(sorted))
             && var a := s.t.assessments[s.workers[pid].assessmentId].authority;
                CanonicalProfile(a.profileDigest)
                && Evaluated(Attached(START, before, pid), |CANONICAL_VALIDATORS|, checks,
                             a.subjectDigest, a.profileDigest, a.executionContractHash)
    ensures var w := Run(START, before).workers[pid];
            var key := ManifestKey(w.assessmentId, w.attemptId);
            var t := Run(START, before + [Work(pid, Finalize(sorted))] + after).t;
            && key in t.manifests
            && (w.assessmentId in t.decisions
                && t.decisions[w.assessmentId].core.evidenceManifestHash == ManifestDigest(t.manifests[key].core) ==>
                  (t.decisions[w.assessmentId].core.decision == Passed <==> AllPass(checks, EXPECTED_CHECKS)))
  {
    var s, e := Run(START, before), Work(pid, Finalize(sorted));
    var w := s.workers[pid];
    assert Authorized(s.t, w.assessmentId, s.t.assessments[w.assessmentId].authority);
    hide Run, Attached, Evaluated, ManifestOfChecks, Enabled, Finalizes, CanonicalProfile, AllPass, EXPECTED_CHECKS, CANONICAL_VALIDATORS;
    FinalizedStays(before, pid, sorted, after, checks);
    var all := before + [e] + after;
    assert before + ([e] + after) == all;
    AuthorityStays(before, [e] + after, w.assessmentId, s.t.assessments[w.assessmentId].authority);
    var t := Run(START, all).t;
    var m := t.manifests[ManifestKey(w.assessmentId, w.attemptId)].core;
    if w.assessmentId in t.decisions && t.decisions[w.assessmentId].core.evidenceManifestHash == ManifestDigest(m) {
      StoredVerdictIsTheChecks(all, w.assessmentId, s.t.assessments[w.assessmentId].authority, m, checks, Attached(START, before, pid));
    }
  }
}
