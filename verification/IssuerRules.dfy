/** When an issuer that runs alone signs a decision, and what it signs, on the rows it reads. */
module IssuerRules {
  import opened Wrappers
  import opened EvidenceRecords
  import opened DecisionRules
  import opened GovernanceTables
  import opened GovernanceProtocol

  // ---- the evidence of one validator -----------------------------------------------------------------------

  /** The entry of a validator that counts is the last one that names it. */
  predicate IsLastEntry(entries: seq<ManifestEntry>, v: ValidatorId, i: nat) {
    && i < |entries| && entries[i].validatorId == v
    && forall k :: i < k < |entries| ==> entries[k].validatorId != v
  }

  lemma {:induction false} LastEntryIs(entries: seq<ManifestEntry>, v: ValidatorId, i: nat)
    requires IsLastEntry(entries, v, i)
    ensures LastEntry(entries, v) == Some(entries[i])
  {
    if i < |entries| - 1 {
      assert entries[..|entries| - 1][i] == entries[i];
      LastEntryIs(entries[..|entries| - 1], v, i);
    }
  }

  lemma {:induction false} NoEntryIs(entries: seq<ManifestEntry>, v: ValidatorId)
    requires forall k :: 0 <= k < |entries| ==> entries[k].validatorId != v
    ensures LastEntry(entries, v) == None
  {
    if entries != [] { NoEntryIs(entries[..|entries| - 1], v); }
  }

  /** Evidence the issuer accepts: about this subject under this profile and contract, produced here, and no error. */
  predicate Accepted(core: EvidenceCore, a: Authority) {
    && core.subjectDigest == a.subjectDigest && core.profileDigest == a.profileDigest
    && core.executionContractHash == a.executionContractHash
    && core.trustClass == DeeprunExecuted && core.status != ERROR
  }

  /** A reason the evidence gives: that it failed or was skipped, and each of its own codes. */
  predicate Gives(core: EvidenceCore, r: ReasonCode) {
    || (core.status == FAIL && (r == RequiredEvidenceFailed || r in core.reasonCodes))
    || (core.status == SKIPPED && (r == RequiredEvidenceSkipped || r in core.reasonCodes))
  }

  lemma WeighCoreExactlyWhen(core: EvidenceCore, a: Authority)
    ensures WeighCore(Some(core), a).Reasons? <==> Accepted(core, a)
    ensures WeighCore(Some(core), a).Reasons? ==> forall r :: r in WeighCore(Some(core), a).reasons <==> Gives(core, r)
    ensures WeighCore(None, a) == Refused(EvidenceMissing)
  {
  }

  /** Which error is named: the first of these that holds, in this order. */
  lemma WeighCoreRefuses(core: EvidenceCore, a: Authority)
    requires !Accepted(core, a)
    ensures WeighCore(Some(core), a) == Refused(
              if core.subjectDigest != a.subjectDigest then SubjectMismatch
              else if core.profileDigest != a.profileDigest then ProfileMismatch
              else if core.executionContractHash != a.executionContractHash then ContractMismatch
              else if core.trustClass != DeeprunExecuted then TrustInsufficient
              else EvidenceIsError)
  {
  }

  // ---- all required validators --------------------------------------------------------------------------------

  /** All required validators have accepted evidence: then the reasons are all that any of it gives. */
  lemma {:induction false} WeighsExactlyWhen(validators: seq<ValidatorRef>, evidence: map<ValidatorId, EvidenceCore>, a: Authority)
    ensures Weigh(validators, evidence, a).Reasons? <==>
              forall i :: 0 <= i < |validators| ==> validators[i].id in evidence && Accepted(evidence[validators[i].id], a)
    ensures Weigh(validators, evidence, a).Reasons? ==>
              forall r :: r in Weigh(validators, evidence, a).reasons <==>
                exists i :: 0 <= i < |validators| && validators[i].id in evidence && Gives(evidence[validators[i].id], r)
  {
    hide Accepted, Gives, WeighCore;
    if validators != [] {
      var n := |validators| - 1;
      WeighsExactlyWhen(validators[..n], evidence, a);
      WeighCoreExactlyWhen(if validators[n].id in evidence then evidence[validators[n].id] else SOME_CORE, a);
      assert forall i :: 0 <= i < n ==> validators[..n][i] == validators[i];
    }
  }

  const SOME_CORE := EvidenceCore(0, Structure, 0, PolicyDigest(0), 0, DeeprunExecuted, PASS, [])

  /** The first required validator without accepted evidence decides the error. */
  lemma FirstFaultDecides(validators: seq<ValidatorRef>, evidence: map<ValidatorId, EvidenceCore>, a: Authority, k: nat)
    requires k < |validators|
    requires forall i :: 0 <= i < k ==> validators[i].id in evidence && Accepted(evidence[validators[i].id], a)
    requires !(validators[k].id in evidence && Accepted(evidence[validators[k].id], a))
    ensures Weigh(validators, evidence, a) ==
              if validators[k].id !in evidence then Refused(EvidenceMissing) else WeighCore(Some(evidence[validators[k].id]), a)
  {
    hide Accepted, WeighCore;
    var upTo := validators[..k + 1];
    assert upTo[..k] == validators[..k];
    WeighsExactlyWhen(validators[..k], evidence, a);
    WeighCoreExactlyWhen(if validators[k].id in evidence then evidence[validators[k].id] else SOME_CORE, a);
    assert Weigh(upTo, evidence, a).Refused?;
    RefusalSticks(validators, k + 1, evidence, a);
  }

  // ---- one issuer, alone -----------------------------------------------------------------------------------------

  /** An issuer after n steps on tables that nobody changes meanwhile. */
  ghost function Reads(t: Tables, p: Issuer, n: nat): Issuer
    decreases n
  {
    if n == 0 then p else Reads(t, p.(pc := IssuerNext(t, p)), n - 1)
  }

  /** It comes to sign that core over the manifest of that attempt. */
  ghost predicate Signs(t: Tables, p: Issuer, attemptId: Id, core: DecisionCore) {
    exists n: nat :: Reads(t, p, n).pc == AtPersist(attemptId, core)
  }

  lemma SignsNext(t: Tables, p: Issuer, attemptId: Id, core: DecisionCore)
    requires !p.pc.AtPersist?
    ensures Signs(t, p, attemptId, core) <==> Signs(t, p.(pc := IssuerNext(t, p)), attemptId, core)
  {
    hide IssuerNext;
    var q := p.(pc := IssuerNext(t, p));
    if Signs(t, p, attemptId, core) {
      var n: nat :| Reads(t, p, n).pc == AtPersist(attemptId, core);
      assert n > 0 && Reads(t, q, n - 1).pc == AtPersist(attemptId, core);
    }
    if Signs(t, q, attemptId, core) {
      var n: nat :| Reads(t, q, n).pc == AtPersist(attemptId, core);
      assert Reads(t, p, n + 1).pc == AtPersist(attemptId, core);
    }
  }

  predicate Over(pc: IssuerPc) {
    pc.AtRefused? || pc.Returned? || pc.Conflicted? || pc.Thrown?
  }

  lemma {:induction false} StaysOver(t: Tables, p: Issuer, n: nat)
    requires Over(p.pc)
    ensures Over(Reads(t, p, n).pc)
    decreases n
  {
    if n > 0 { StaysOver(t, p.(pc := IssuerNext(t, p)), n - 1); }
  }

  lemma OverSignsNothing(t: Tables, p: Issuer, attemptId: Id, core: DecisionCore)
    requires Over(p.pc)
    ensures !Signs(t, p, attemptId, core)
  {
    if Signs(t, p, attemptId, core) {
      var n: nat :| Reads(t, p, n).pc == AtPersist(attemptId, core);
      StaysOver(t, p, n);
      assert false;
    }
  }

  lemma SignsNow(t: Tables, p: Issuer, attemptId: Id, core: DecisionCore)
    requires p.pc.AtPersist?
    ensures Signs(t, p, attemptId, core) <==> p.pc == AtPersist(attemptId, core)
  {
    assert Reads(t, p, 0) == p;
    if Signs(t, p, attemptId, core) {
      var n: nat :| Reads(t, p, n).pc == AtPersist(attemptId, core);
      var q := p.(pc := IssuerNext(t, p));
      assert Over(q.pc);
      if n > 0 {
        StaysOver(t, q, n - 1);
      }
    }
  }

  // ---- the manifest and its evidence ---------------------------------------------------------------------------

  /** The store has the core that the manifest names for a validator. */
  ghost predicate Evidence(t: Tables, m: ManifestCore, v: ValidatorId, core: EvidenceCore) {
    exists i: nat :: IsLastEntry(m.entries, v, i) && m.entries[i].coreHash in t.cores && t.cores[m.entries[i].coreHash] == core
  }

  ghost predicate IsEvidence(t: Tables, m: ManifestCore, v: ValidatorId, found: Option<EvidenceCore>) {
    match found
    case Some(core) => Evidence(t, m, v, core)
    case None => forall core :: !Evidence(t, m, v, core)
  }

  lemma LastsAgree(entries: seq<ManifestEntry>, v: ValidatorId, i: nat, k: nat)
    requires IsLastEntry(entries, v, i) && IsLastEntry(entries, v, k)
    ensures i == k
  {
  }

  /** What one read adds is what the store has. */
  lemma GatherFinds(t: Tables, m: ManifestCore, v: ValidatorId, evidence: map<ValidatorId, EvidenceCore>)
    requires v in evidence ==> Evidence(t, m, v, evidence[v])
    ensures var more := Gather(t, m, v, evidence);
            && IsEvidence(t, m, v, Lookup(more, v))
            && forall w :: w != v ==> Lookup(more, w) == Lookup(evidence, w)
  {
    if exists i: nat :: IsLastEntry(m.entries, v, i) {
      var i: nat :| IsLastEntry(m.entries, v, i);
      LastEntryIs(m.entries, v, i);
      forall k: nat | IsLastEntry(m.entries, v, k) ensures k == i { LastsAgree(m.entries, v, i, k); }
    } else {
      NoLastIsNone(m.entries, v);
      NoEntryIs(m.entries, v);
      hide IsLastEntry, LastEntry;
    }
  }

  lemma {:induction false} NoLastIsNone(entries: seq<ManifestEntry>, v: ValidatorId)
    requires forall i: nat :: !IsLastEntry(entries, v, i)
    ensures forall k :: 0 <= k < |entries| ==> entries[k].validatorId != v
  {
    if entries != [] {
      var n := |entries| - 1;
      assert !IsLastEntry(entries, v, n);
      forall i: nat | IsLastEntry(entries[..n], v, i) ensures IsLastEntry(entries, v, i) {}
      NoLastIsNone(entries[..n], v);
      assert forall k :: 0 <= k < n ==> entries[..n][k] == entries[k];
    }
  }

  lemma OneEvidence(t: Tables, m: ManifestCore, v: ValidatorId, c: EvidenceCore, d: EvidenceCore)
    requires Evidence(t, m, v, c) && Evidence(t, m, v, d)
    ensures c == d
  {
    var i: nat :| IsLastEntry(m.entries, v, i) && m.entries[i].coreHash in t.cores && t.cores[m.entries[i].coreHash] == c;
    var k: nat :| IsLastEntry(m.entries, v, k) && m.entries[k].coreHash in t.cores && t.cores[m.entries[k].coreHash] == d;
    LastsAgree(m.entries, v, i, k);
  }

  ghost predicate HasAccepted(t: Tables, m: ManifestCore, v: ValidatorId, a: Authority) {
    exists c :: Evidence(t, m, v, c) && Accepted(c, a)
  }

  /** Every required validator has evidence that is accepted. */
  ghost predicate AllAccepted(t: Tables, m: ManifestCore, validators: seq<ValidatorRef>, a: Authority) {
    forall j :: 0 <= j < |validators| ==> HasAccepted(t, m, validators[j].id, a)
  }

  ghost predicate IsReason(t: Tables, m: ManifestCore, validators: seq<ValidatorRef>, r: ReasonCode) {
    exists j, c :: 0 <= j < |validators| && Evidence(t, m, validators[j].id, c) && Gives(c, r)
  }

  /** The decision: it repeats the authority, names the manifest and the contract, and has failed exactly when there is a reason. */
  ghost predicate Concludes(t: Tables, m: Manifest, validators: seq<ValidatorRef>, a: Authority, contractJson: Id, core: DecisionCore) {
    && core.subjectDigest == a.subjectDigest
    && core.profileKey == a.profileKey && core.profileDigest == a.profileDigest
    && core.policyKey == a.policyKey && core.policyDigest == a.policyDigest
    && core.executionContractHash == a.executionContractHash
    && core.evidenceManifestHash == m.bodyHash && core.controlPlaneIdentityHash == ContractDigest(contractJson)
    && (forall r :: r in core.reasonCodes <==> IsReason(t, m.core, validators, r))
    && (core.decision == Passed <==> core.reasonCodes == {})
  }

  /** What has been read so far is the evidence. */
  ghost predicate ReadSoFar(t: Tables, m: ManifestCore, validators: seq<ValidatorRef>, evidence: map<ValidatorId, EvidenceCore>, n: nat)
    requires n <= |validators|
  {
    && (forall j :: 0 <= j < n ==> IsEvidence(t, m, validators[j].id, Lookup(evidence, validators[j].id)))
    && (forall v :: v in evidence ==> Evidence(t, m, v, evidence[v]))
  }

  lemma ReadsOneMore(t: Tables, m: ManifestCore, validators: seq<ValidatorRef>, evidence: map<ValidatorId, EvidenceCore>, n: nat)
    requires n < |validators| && ReadSoFar(t, m, validators, evidence, n)
    ensures ReadSoFar(t, m, validators, Gather(t, m, validators[n].id, evidence), n + 1)
  {
    GatherFinds(t, m, validators[n].id, evidence);
    var more := Gather(t, m, validators[n].id, evidence);
    hide Evidence, Gather;
    forall v | v in more
      ensures Evidence(t, m, v, more[v])
    {
      if v != validators[n].id { assert Lookup(more, v) == Lookup(evidence, v); }
    }
  }

  lemma ReadIsEvidence(t: Tables, m: ManifestCore, validators: seq<ValidatorRef>, evidence: map<ValidatorId, EvidenceCore>, j: nat,
                       c: EvidenceCore)
    requires ReadSoFar(t, m, validators, evidence, |validators|) && j < |validators|
    ensures Evidence(t, m, validators[j].id, c) <==> validators[j].id in evidence && evidence[validators[j].id] == c
  {
    hide Evidence;
    var v := validators[j].id;
    assert IsEvidence(t, m, v, Lookup(evidence, v));
    if v in evidence && Evidence(t, m, v, c) { OneEvidence(t, m, v, c, evidence[v]); }
  }

  lemma AcceptedIs(t: Tables, m: ManifestCore, validators: seq<ValidatorRef>, evidence: map<ValidatorId, EvidenceCore>, a: Authority)
    requires ReadSoFar(t, m, validators, evidence, |validators|)
    ensures AllAccepted(t, m, validators, a) <==>
              forall i :: 0 <= i < |validators| ==> validators[i].id in evidence && Accepted(evidence[validators[i].id], a)
  {
    hide Evidence, Accepted, ReadSoFar;
    if AllAccepted(t, m, validators, a) {
      forall i | 0 <= i < |validators|
        ensures validators[i].id in evidence && Accepted(evidence[validators[i].id], a)
      {
        assert HasAccepted(t, m, validators[i].id, a);
        var c :| Evidence(t, m, validators[i].id, c) && Accepted(c, a);
        ReadIsEvidence(t, m, validators, evidence, i, c);
      }
    }
    if forall i :: 0 <= i < |validators| ==> validators[i].id in evidence && Accepted(evidence[validators[i].id], a) {
      forall i | 0 <= i < |validators|
        ensures HasAccepted(t, m, validators[i].id, a)
      {
        ReadIsEvidence(t, m, validators, evidence, i, evidence[validators[i].id]);
      }
    }
  }

  lemma ReasonIs(t: Tables, m: ManifestCore, validators: seq<ValidatorRef>, evidence: map<ValidatorId, EvidenceCore>, r: ReasonCode)
    requires ReadSoFar(t, m, validators, evidence, |validators|)
    ensures IsReason(t, m, validators, r) <==>
              exists i :: 0 <= i < |validators| && validators[i].id in evidence && Gives(evidence[validators[i].id], r)
  {
    hide Evidence, Gives, ReadSoFar;
    if IsReason(t, m, validators, r) {
      var j, c :| 0 <= j < |validators| && Evidence(t, m, validators[j].id, c) && Gives(c, r);
      ReadIsEvidence(t, m, validators, evidence, j, c);
    }
    if i :| 0 <= i < |validators| && validators[i].id in evidence && Gives(evidence[validators[i].id], r) {
      ReadIsEvidence(t, m, validators, evidence, i, evidence[validators[i].id]);
    }
  }

  /** With all evidence read, the weighing succeeds when all of it is accepted, and its reasons are the reasons. */
  lemma WeighsTheEvidence(t: Tables, m: ManifestCore, validators: seq<ValidatorRef>, evidence: map<ValidatorId, EvidenceCore>, a: Authority)
    requires ReadSoFar(t, m, validators, evidence, |validators|)
    ensures Weigh(validators, evidence, a).Reasons? <==> AllAccepted(t, m, validators, a)
    ensures Weigh(validators, evidence, a).Reasons? ==>
              forall r :: r in Weigh(validators, evidence, a).reasons <==> IsReason(t, m, validators, r)
  {
    hide Accepted, Gives, Weigh, ReadSoFar, AllAccepted, IsReason;
    WeighsExactlyWhen(validators, evidence, a);
    AcceptedIs(t, m, validators, evidence, a);
    forall r ensures IsReason(t, m, validators, r) <==>
      exists i :: 0 <= i < |validators| && validators[i].id in evidence && Gives(evidence[validators[i].id], r)
    {
      ReasonIs(t, m, validators, evidence, r);
    }
  }

  lemma ConcludesExactlyWhen(t: Tables, m: Manifest, validators: seq<ValidatorRef>, a: Authority, contractJson: Id, reasons: set<ReasonCode>,
                             core: DecisionCore)
    requires forall r :: r in reasons <==> IsReason(t, m.core, validators, r)
    ensures core == DecisionOf(a, m.bodyHash, contractJson, reasons) <==> Concludes(t, m, validators, a, contractJson, core)
  {
    hide IsReason;
    if Concludes(t, m, validators, a, contractJson, core) { assert core.reasonCodes == reasons; }
  }

  lemma {:induction false} EvidenceSigns(t: Tables, p: Issuer, attemptId: Id, core: DecisionCore)
    requires p.pc.AtEvidence? && p.pc.next <= |p.pc.profile.validatorSet|
    requires ReadSoFar(t, p.pc.manifest.core, p.pc.profile.validatorSet, p.pc.evidence, p.pc.next)
    ensures var validators := p.pc.profile.validatorSet;
            Signs(t, p, attemptId, core) <==>
              && attemptId == p.pc.attemptId && AllAccepted(t, p.pc.manifest.core, validators, p.pc.authority)
              && Concludes(t, p.pc.manifest, validators, p.pc.authority, p.pc.contractJson, core)
    decreases |p.pc.profile.validatorSet| - p.pc.next
  {
    var validators, m, a := p.pc.profile.validatorSet, p.pc.manifest, p.pc.authority;
    SignsNext(t, p, attemptId, core);
    var q := p.(pc := IssuerNext(t, p));
    hide Signs, ReadSoFar, AllAccepted, Concludes, Weigh, Gather, DecisionOf;
    if p.pc.next < |validators| {
      ReadsOneMore(t, m.core, validators, p.pc.evidence, p.pc.next);
      assert q.pc == p.pc.(evidence := Gather(t, m.core, validators[p.pc.next].id, p.pc.evidence), next := p.pc.next + 1);
      hide IssuerNext;
      EvidenceSigns(t, q, attemptId, core);
    } else {
      WeighsTheEvidence(t, m.core, validators, p.pc.evidence, a);
      var weighed := Weigh(validators, p.pc.evidence, a);
      if weighed.Refused? {
        OverSignsNothing(t, q, attemptId, core);
      } else {
        SignsNow(t, q, attemptId, core);
        ConcludesExactlyWhen(t, m, validators, a, p.pc.contractJson, weighed.reasons, core);
      }
    }
  }

  // ---- the rows before the evidence ------------------------------------------------------------------------------

  /** The manifest is the one of that attempt, unaltered, and about what the authority is about. */
  predicate Bound(m: Manifest, assessmentId: Id, attemptId: Id, a: Authority) {
    && m.assessmentId == assessmentId && m.attemptId == attemptId && m.bodyHash == m.rowHash
    && m.core.subjectDigest == a.subjectDigest && m.core.profileDigest == a.profileDigest
    && m.core.executionContractHash == a.executionContractHash
  }

  lemma ComplaintExactlyWhen(m: Manifest, assessmentId: Id, attemptId: Id, a: Authority)
    ensures ManifestComplaint(m, assessmentId, attemptId, a) ==
              if Bound(m, assessmentId, attemptId, a) then None
              else Some(if m.assessmentId != assessmentId then SubjectMismatch
                        else if m.attemptId != attemptId || m.bodyHash != m.rowHash then EvidenceMissing
                        else if m.core.subjectDigest != a.subjectDigest then SubjectMismatch
                        else if m.core.profileDigest != a.profileDigest then ProfileMismatch
                        else ContractMismatch)
  {
  }

  /** The manifest and the evidence it names lead to that core. */
  ghost predicate Attested(t: Tables, assessmentId: Id, attemptId: Id, a: Authority, profile: Profile, contractJson: Id, core: DecisionCore) {
    && ManifestKey(assessmentId, attemptId) in t.manifests
    && var m := t.manifests[ManifestKey(assessmentId, attemptId)];
       && Bound(m, assessmentId, attemptId, a)
       && AllAccepted(t, m.core, profile.validatorSet, a)
       && Concludes(t, m, profile.validatorSet, a, contractJson, core)
  }

  lemma ManifestSigns(t: Tables, p: Issuer, attemptId: Id, core: DecisionCore)
    requires p.pc.AtManifest?
    ensures Signs(t, p, attemptId, core) <==>
              attemptId == p.pc.attemptId && Attested(t, p.assessmentId, attemptId, p.pc.authority, p.pc.profile, p.pc.contractJson, core)
  {
    SignsNext(t, p, attemptId, core);
    var q := p.(pc := IssuerNext(t, p));
    var key := ManifestKey(p.assessmentId, p.pc.attemptId);
    hide Signs, AllAccepted, Concludes;
    if key in t.manifests { ComplaintExactlyWhen(t.manifests[key], p.assessmentId, p.pc.attemptId, p.pc.authority); }
    hide Bound;
    if q.pc.AtEvidence? {
      assert ReadSoFar(t, q.pc.manifest.core, q.pc.profile.validatorSet, map[], 0);
      EvidenceSigns(t, q, attemptId, core);
    } else {
      OverSignsNothing(t, q, attemptId, core);
    }
  }

  /** The snapshots are the ones the authority was made from, and its input hash is the hash of its parts. */
  predicate Verified(a: Authority, profile: Profile, policy: Id) {
    && a.profileDigest == ProfileDigest(profile.id, profile.version, multiset(profile.validatorSet))
    && a.policyDigest == PolicyDigest(policy)
    && a.assessmentInputHash == InputDigest(a.subjectDigest, a.profileDigest, a.policyDigest, a.executionContractHash)
  }

  /** Assessment and attempt are where they must be, and the contract is stored. */
  ghost predicate Decidable(t: Tables, assessmentId: Id, attemptId: Id, row: Assessment, attempt: Attempt, profile: Profile, policy: Id,
                            core: DecisionCore) {
    && row.status == Deciding && attempt.status == AttemptComplete
    && Verified(row.authority, profile, policy)
    && row.authority.executionContractHash in t.contracts
    && Attested(t, assessmentId, attemptId, row.authority, profile, t.contracts[row.authority.executionContractHash], core)
  }

  lemma ContractSigns(t: Tables, p: Issuer, attemptId: Id, core: DecisionCore)
    requires p.pc.AtContract?
    ensures Signs(t, p, attemptId, core) <==>
              attemptId == p.pc.attemptId
              && Decidable(t, p.assessmentId, attemptId, p.pc.row, p.pc.attempt, p.pc.profile, p.pc.policy, core)
  {
    SignsNext(t, p, attemptId, core);
    var q := p.(pc := IssuerNext(t, p));
    hide Signs, Attested;
    if q.pc.AtManifest? { ManifestSigns(t, q, attemptId, core); } else { OverSignsNothing(t, q, attemptId, core); }
  }

  /** The snapshots that the row's authority names are stored. */
  ghost predicate Snapshots(t: Tables, assessmentId: Id, attemptId: Id, row: Assessment, attempt: Attempt, core: DecisionCore) {
    && row.authority.profileKey in t.profiles && row.authority.policyKey in t.policies
    && Decidable(t, assessmentId, attemptId, row, attempt, t.profiles[row.authority.profileKey], t.policies[row.authority.policyKey], core)
  }

  lemma ProfileSigns(t: Tables, p: Issuer, attemptId: Id, core: DecisionCore)
    requires p.pc.AtProfile?
    ensures Signs(t, p, attemptId, core) <==>
              attemptId == p.pc.attemptId && Snapshots(t, p.assessmentId, attemptId, p.pc.row, p.pc.attempt, core)
  {
    SignsNext(t, p, attemptId, core);
    var q := p.(pc := IssuerNext(t, p));
    hide Signs, Decidable;
    if q.pc.AtPolicy? {
      SignsNext(t, q, attemptId, core);
      var r := q.(pc := IssuerNext(t, q));
      if r.pc.AtContract? { ContractSigns(t, r, attemptId, core); } else { OverSignsNothing(t, r, attemptId, core); }
    } else {
      OverSignsNothing(t, q, attemptId, core);
    }
  }

  /** The rows of the assessment and of its attempt are there. */
  ghost predicate Rows(t: Tables, assessmentId: Id, attemptId: Id, core: DecisionCore) {
    && assessmentId in t.assessments && attemptId in t.attempts && t.attempts[attemptId].assessmentId == assessmentId
    && Snapshots(t, assessmentId, attemptId, t.assessments[assessmentId], t.attempts[attemptId], core)
  }

  lemma AssessmentSigns(t: Tables, p: Issuer, attemptId: Id, core: DecisionCore)
    requires p.pc.AtAssessment?
    ensures Signs(t, p, attemptId, core) <==> attemptId == p.pc.attemptId && Rows(t, p.assessmentId, attemptId, core)
  {
    SignsNext(t, p, attemptId, core);
    var q := p.(pc := IssuerNext(t, p));
    hide Signs, Snapshots;
    if q.pc.AtAttempt? {
      SignsNext(t, q, attemptId, core);
      var r := q.(pc := IssuerNext(t, q));
      if r.pc.AtProfile? { ProfileSigns(t, r, attemptId, core); } else { OverSignsNothing(t, r, attemptId, core); }
    } else {
      OverSignsNothing(t, q, attemptId, core);
    }
  }

  /** Evidence is selected for the assessment, all of it of that attempt. */
  ghost predicate OnlySelected(t: Tables, assessmentId: Id, attemptId: Id) {
    && (exists k :: k in t.links && k.assessmentId == assessmentId && t.links[k].selected)
    && (forall k :: k in t.links && k.assessmentId == assessmentId && t.links[k].selected ==> k.attemptId == attemptId)
  }

  lemma SelectedExactlyWhen(t: Tables, assessmentId: Id, attemptId: Id)
    ensures SelectedAttempts(t, assessmentId) == {attemptId} <==> OnlySelected(t, assessmentId, attemptId)
  {
    var attempts := SelectedAttempts(t, assessmentId);
    if OnlySelected(t, assessmentId, attemptId) {
      var k :| k in t.links && k.assessmentId == assessmentId && t.links[k].selected;
      assert k.attemptId in attempts;
    }
    if attempts == {attemptId} {
      assert attemptId in attempts;
      forall k | k in t.links && k.assessmentId == assessmentId && t.links[k].selected
        ensures k.attemptId == attemptId
      {
        assert k.attemptId in attempts;
      }
    }
  }

  lemma SingletonIs(s: set<Id>, x: Id)
    ensures s == {x} <==> |s| == 1 && Only(s) == x
  {
  }

  /** An issuer that runs alone signs a decision of an assessment exactly when none is stored, the selected evidence is of one
    * attempt, that attempt is complete and the assessment deciding, every snapshot is stored and is what the authority was made
    * from, the attempt's manifest is bound to it, and each validator the profile requires has accepted evidence in the last entry
    * that names it. The core it signs is determined by these rows. */
  lemma SignsExactlyWhen(t: Tables, assessmentId: Id, name: Id, attemptId: Id, core: DecisionCore)
    ensures Signs(t, Issuer(assessmentId, name, AtStart), attemptId, core) <==>
              assessmentId !in t.decisions && OnlySelected(t, assessmentId, attemptId) && Rows(t, assessmentId, attemptId, core)
  {
    var p := Issuer(assessmentId, name, AtStart);
    SignsNext(t, p, attemptId, core);
    var q := p.(pc := IssuerNext(t, p));
    SelectedExactlyWhen(t, assessmentId, attemptId);
    SingletonIs(SelectedAttempts(t, assessmentId), attemptId);
    hide Signs, Rows, OnlySelected, SelectedAttempts;
    if q.pc.AtSelect? {
      SignsNext(t, q, attemptId, core);
      var r := q.(pc := IssuerNext(t, q));
      if r.pc.AtAssessment? { AssessmentSigns(t, r, attemptId, core); } else { OverSignsNothing(t, r, attemptId, core); }
    } else {
      OverSignsNothing(t, q, attemptId, core);
    }
  }

  // ---- refusals, and the store's answer -----------------------------------------------------------------------------

  /** A refusal names its reason, puts the assessment in error and throws; a stored decision is returned as it is. */
  lemma RefusesExactlyWhen(t: Tables, p: Issuer)
    ensures p.pc.AtStart? && p.assessmentId in t.decisions ==> IssuerNext(t, p) == Returned(t.decisions[p.assessmentId])
    ensures p.pc.AtSelect? && (forall x :: SelectedAttempts(t, p.assessmentId) != {x}) ==> IssuerNext(t, p) == AtRefused(EvidenceMissing)
    ensures p.pc.AtManifest? && ManifestKey(p.assessmentId, p.pc.attemptId) !in t.manifests ==>
              IssuerNext(t, p) == AtRefused(EvidenceMissing)
    ensures (&& p.pc.AtContract? && p.pc.row.authority.executionContractHash in t.contracts
             && Verified(p.pc.row.authority, p.pc.profile, p.pc.policy)
             && (p.pc.row.status != Deciding || p.pc.attempt.status != AttemptComplete)) ==> IssuerNext(t, p) == AtRefused(NotComplete)
    ensures p.pc.AtRefused? ==>
              && IssuerNext(t, p) == Thrown
              && IssuerTables(t, p) == if p.assessmentId !in t.assessments then t
                                       else t.(assessments := t.assessments[p.assessmentId := t.assessments[p.assessmentId].(status := Error)])
  {
    if p.pc.AtSelect? {
      var attempts := SelectedAttempts(t, p.assessmentId);
      if |attempts| == 1 { SingletonIs(attempts, Only(attempts)); }
    }
  }

  /** A decision is written once: when the assessment is deciding and has none, and no assessment has its hash. A second one with the
    * same hash is answered with the first, another one is a conflict, and neither changes a table. */
  lemma PersistExactlyWhen(t: Tables, assessmentId: Id, d: IssuedDecision)
    ensures var o := PersistOutcomeOf(t, assessmentId, d);
            if assessmentId !in t.assessments then o == AssessmentMissing
            else if assessmentId in t.decisions then
              o == if t.decisions[assessmentId].decisionHash == d.decisionHash then Stored(t.decisions[assessmentId]) else HashConflict
            else if t.assessments[assessmentId].status != Deciding then o == NotDeciding
            else o == if exists x :: x in t.decisions && t.decisions[x].decisionHash == d.decisionHash then HashTaken else Stored(d)
    ensures PersistDecision(t, assessmentId, d) ==
              if && assessmentId in t.assessments && assessmentId !in t.decisions && t.assessments[assessmentId].status == Deciding
                 && forall x :: x in t.decisions ==> t.decisions[x].decisionHash != d.decisionHash
              then t.(decisions := t.decisions[assessmentId := d],
                      assessments := t.assessments[assessmentId :=
                        Assessment(t.assessments[assessmentId].authority, Complete, Some(d.decisionHash))])
              else t
  {
  }

  /** What an issuer signs carries its own name and the digest of the core; it ends with what the store answers. */
  lemma PersistsWhatItSigned(t: Tables, p: Issuer)
    requires p.pc.AtPersist?
    ensures var d := IssuedDecision(p.pc.core, DecisionDigest(p.pc.core), p.name);
            && IssuerTables(t, p) == PersistDecision(t, p.assessmentId, d)
            && IssuerNext(t, p) == match PersistOutcomeOf(t, p.assessmentId, d)
                 case Stored(s) => Returned(s)
                 case HashConflict => Conflicted
                 case _ => Thrown
  {
  }

  // ---- snapshots and evidence, as they are stored ---------------------------------------------------------------------

  /** Profiles and policies are replaced under their key, contracts and evidence cores are kept. */
  lemma StoredExactlyWhen(t: Tables, key: SnapshotKey, profile: Profile, policy: Id, contractHash: Id, contractJson: Id, core: EvidenceCore)
    ensures UpsertProfile(t, key, profile) == t.(profiles := t.profiles[key := profile])
    ensures UpsertPolicy(t, key, policy) == t.(policies := t.policies[key := policy])
    ensures UpsertContract(t, contractHash, contractJson) ==
              if contractHash in t.contracts then t else t.(contracts := t.contracts[contractHash := contractJson])
    ensures UpsertCore(t, core) == if CoreDigest(core) in t.cores then t else t.(cores := t.cores[CoreDigest(core) := core])
  {
  }
}
