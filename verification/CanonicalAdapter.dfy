/** From the heavy validator's checks to evidence, and from there to the verdict the issuer signs. */
module CanonicalAdapter {
  import opened Wrappers
  import opened EvidenceRecords
  import opened DecisionRules
  import opened SortedText

  datatype CheckStatus = CheckPass | CheckFail | CheckSkip
  datatype Check = Check(id: CheckId, status: CheckStatus)

  datatype ValidatorSpec = ValidatorSpec(id: ValidatorId, checkIds: seq<CheckId>)

  const CANONICAL_VALIDATORS: seq<ValidatorSpec> := [
    ValidatorSpec(Structure, [ArchitectureCheck, ProductionConfigCheck]),
    ValidatorSpec(Dependencies, [InstallCheck]),
    ValidatorSpec(Prisma, [MigrationCheck, SeedCheck]),
    ValidatorSpec(Typecheck, [TypecheckCheck]),
    ValidatorSpec(Build, [BuildCheck]),
    ValidatorSpec(Tests, [TestsCheck]),
    ValidatorSpec(RuntimeHealth, [BootCheck])
  ]

  function Prerequisites(v: ValidatorId): seq<ValidatorId> {
    match v
    case Dependencies => [Structure]
    case Prisma => [Dependencies]
    case Typecheck => [Prisma]
    case Build => [Typecheck]
    case Tests => [Build]
    case RuntimeHealth => [Build]
    case _ => []
  }

  /** The version every canonical validator carries. */
  const VALIDATOR_VERSION: Id := 100

  // ---- one validator ------------------------------------------------------------------------------

  /** A Map built from the checks keeps the last one of each id. */
  function LastCheck(checks: seq<Check>, id: CheckId): Option<CheckStatus> {
    if checks == [] then None
    else if checks[|checks| - 1].id == id then Some(checks[|checks| - 1].status)
    else LastCheck(checks[..|checks| - 1], id)
  }

  predicate Passes(checks: seq<Check>, id: CheckId) {
    LastCheck(checks, id) == Some(CheckPass)
  }

  predicate Fails(checks: seq<Check>, id: CheckId) {
    LastCheck(checks, id) == Some(CheckFail)
  }

  /** The reason a check that does not pass gives. */
  function TroubleWith(checks: seq<Check>, id: CheckId): ReasonCode {
    match LastCheck(checks, id)
    case None => PrerequisiteCheckNotProduced
    case Some(CheckSkip) => CheckSkipped(id)
    case _ => CheckFailed(id)
  }

  /** The first check of the list that does not pass. */
  function FirstTrouble(checks: seq<Check>, ids: seq<CheckId>): Option<ReasonCode> {
    if ids == [] then None
    else match FirstTrouble(checks, ids[..|ids| - 1])
      case Some(r) => Some(r)
      case None => if Passes(checks, ids[|ids| - 1]) then None else Some(TroubleWith(checks, ids[|ids| - 1]))
  }

  predicate AnyFails(checks: seq<Check>, ids: seq<CheckId>) {
    exists i :: 0 <= i < |ids| && Fails(checks, ids[i])
  }

  predicate AllPass(checks: seq<Check>, ids: seq<CheckId>) {
    forall i :: 0 <= i < |ids| ==> Passes(checks, ids[i])
  }

  /** A validator fails if one of its checks does; otherwise it passes only if they all do. */
  function StatusFor(checks: seq<Check>, ids: seq<CheckId>): EvidenceStatus {
    if AnyFails(checks, ids) then FAIL else if AllPass(checks, ids) then PASS else SKIPPED
  }

  function ReasonsFor(checks: seq<Check>, ids: seq<CheckId>): set<ReasonCode> {
    (set i | 0 <= i < |ids| && Fails(checks, ids[i]) :: CheckFailed(ids[i]))
    + match FirstTrouble(checks, ids) case None => {} case Some(r) => {r}
  }

  method AggregateChecks(checks: seq<Check>, checkIds: seq<CheckId>) returns (status: EvidenceStatus,
                         reasonCodes: seq<ReasonCode>)
    requires checkIds != []
    ensures status == StatusFor(checks, checkIds)
    ensures SetOf(reasonCodes) == ReasonsFor(checks, checkIds) && Distinct(reasonCodes)
  {
    var aggregateStatus := PASS;
    var reasons: seq<ReasonCode> := [];
    var allSkipped := true;
    var i := 0;
    while i < |checkIds|
      invariant 0 <= i <= |checkIds|
      invariant aggregateStatus == StatusFor(checks, checkIds[..i])
      invariant allSkipped ==> forall k :: 0 <= k < i ==> !Passes(checks, checkIds[k])
      invariant SetOf(reasons) == ReasonsFor(checks, checkIds[..i])
    {
      var checkId := checkIds[i];
      var check := LastCheck(checks, checkId);
      AnotherCheck(checks, checkIds, i);
      if check.None? {
        if aggregateStatus == PASS {
          aggregateStatus := SKIPPED;
          reasons := reasons + [PrerequisiteCheckNotProduced];
        }
        i := i + 1;
        continue;
      }
      if check.value != CheckSkip { allSkipped := false; }
      if check.value == CheckFail {
        aggregateStatus := FAIL;
        reasons := reasons + [CheckFailed(checkId)];
      } else if check.value == CheckSkip && aggregateStatus == PASS {
        aggregateStatus := SKIPPED;
        reasons := reasons + [CheckSkipped(checkId)];
      }
      i := i + 1;
    }
    assert checkIds[..i] == checkIds;
    if allSkipped && |checkIds| > 0 && aggregateStatus != FAIL {
      assert !Passes(checks, checkIds[0]);
      aggregateStatus := SKIPPED;
    }
    UniqueKeepsElements(reasons);
    assert SetOf(Unique(reasons)) == SetOf(reasons);
    status, reasonCodes := aggregateStatus, Unique(reasons);
  }

  lemma AnotherCheck(checks: seq<Check>, ids: seq<CheckId>, i: nat)
    requires i < |ids|
    ensures StatusFor(checks, ids[..i + 1]) ==
      if Fails(checks, ids[i]) then FAIL
      else if StatusFor(checks, ids[..i]) == PASS && !Passes(checks, ids[i]) then SKIPPED
      else StatusFor(checks, ids[..i])
    ensures ReasonsFor(checks, ids[..i + 1]) == ReasonsFor(checks, ids[..i])
      + (if Fails(checks, ids[i]) then {CheckFailed(ids[i])}
         else if StatusFor(checks, ids[..i]) == PASS && !Passes(checks, ids[i]) then {TroubleWith(checks, ids[i])}
         else {})
  {
    assert ids[..i + 1] == ids[..i] + [ids[i]];
    assert ids[..i + 1][..i] == ids[..i];
    FirstTroubleMeans(checks, ids[..i]);
  }

  lemma {:induction false} FirstTroubleMeans(checks: seq<Check>, ids: seq<CheckId>)
    ensures FirstTrouble(checks, ids).None? <==> AllPass(checks, ids)
  {
    if ids != [] { FirstTroubleMeans(checks, ids[..|ids| - 1]); }
  }

  // ---- all validators -----------------------------------------------------------------------------------

  /** A prerequisite that produced FAIL before this validator's turn. */
  ghost predicate Blocked(results: seq<EvidenceCore>, i: nat)
    requires i <= |results| && i < |CANONICAL_VALIDATORS|
  {
    exists j :: 0 <= j < i && results[j].validatorId in Prerequisites(CANONICAL_VALIDATORS[i].id) && results[j].status == FAIL
  }

  ghost predicate ResultFor(results: seq<EvidenceCore>, i: nat, checks: seq<Check>, subjectDigest: Id,
                            profileDigest: Digest, contract: Id)
    requires i < |results| && i < |CANONICAL_VALIDATORS|
  {
    var core, spec := results[i], CANONICAL_VALIDATORS[i];
    && core.validatorId == spec.id && core.validatorVersion == VALIDATOR_VERSION
    && core.subjectDigest == subjectDigest && core.profileDigest == profileDigest && core.executionContractHash == contract
    && core.trustClass == DeeprunExecuted
    && core.status == (if Blocked(results, i) then SKIPPED else StatusFor(checks, spec.checkIds))
    && SetOf(core.reasonCodes) == (
         if Blocked(results, i) then set p | p in Prerequisites(spec.id) :: PrerequisiteFailed(p)
         else ReasonsFor(checks, spec.checkIds))
  }

  ghost predicate Evaluated(results: seq<EvidenceCore>, n: nat, checks: seq<Check>, subjectDigest: Id,
                            profileDigest: Digest, contract: Id) {
    && |results| == n <= |CANONICAL_VALIDATORS|
    && forall i :: 0 <= i < n ==> ResultFor(results, i, checks, subjectDigest, profileDigest, contract)
  }

  function FirstFailed(prerequisites: seq<ValidatorId>, status: map<ValidatorId, EvidenceStatus>): (r: Option<ValidatorId>)
    ensures r.Some? ==> r.value in prerequisites && r.value in status && status[r.value] == FAIL
    ensures r.None? ==> forall p :: p in prerequisites && p in status ==> status[p] != FAIL
  {
    if prerequisites == [] then None
    else if prerequisites[0] in status && status[prerequisites[0]] == FAIL then Some(prerequisites[0])
    else FirstFailed(prerequisites[1..], status)
  }

  method Evaluate(checks: seq<Check>, subjectDigest: Id, profileDigest: Digest,
                  contract: Id) returns (results: seq<EvidenceCore>)
    ensures Evaluated(results, |CANONICAL_VALIDATORS|, checks, subjectDigest, profileDigest, contract)
  {
    hide StatusFor, ReasonsFor, Prerequisites, ResultFor;
    results := [];
    var statusOf: map<ValidatorId, EvidenceStatus> := map[];
    var i := 0;
    while i < |CANONICAL_VALIDATORS|
      invariant 0 <= i <= |CANONICAL_VALIDATORS|
      invariant Evaluated(results, i, checks, subjectDigest, profileDigest, contract)
      invariant Recorded(results, statusOf)
    {
      var spec := CANONICAL_VALIDATORS[i];
      var failedPrerequisite := FirstFailed(Prerequisites(spec.id), statusOf);
      BlockedMeans(results, i, statusOf);
      var core;
      if failedPrerequisite.Some? {
        core := EvidenceCore(subjectDigest, spec.id, VALIDATOR_VERSION, profileDigest, contract, DeeprunExecuted, SKIPPED,
                             [PrerequisiteFailed(failedPrerequisite.value)]);
        OnePrerequisite(spec.id, failedPrerequisite.value);
      } else {
        SpecHasChecks(i);
        var status, reasonCodes := AggregateChecks(checks, spec.checkIds);
        core := EvidenceCore(subjectDigest, spec.id, VALIDATOR_VERSION, profileDigest, contract, DeeprunExecuted, status, reasonCodes);
      }
      AddsResult(results, i, core, statusOf, checks, subjectDigest, profileDigest, contract);
      statusOf := statusOf[spec.id := core.status];
      results := results + [core];
      i := i + 1;
    }
  }

  /** The status map holds the status of every result so far. */
  ghost predicate Recorded(results: seq<EvidenceCore>, status: map<ValidatorId, EvidenceStatus>) {
    && (forall j :: 0 <= j < |results| ==> results[j].validatorId in status && status[results[j].validatorId] == results[j].status)
    && (forall v :: v in status ==> exists j :: 0 <= j < |results| && results[j].validatorId == v)
  }

  lemma BlockedMeans(results: seq<EvidenceCore>, i: nat, status: map<ValidatorId, EvidenceStatus>)
    requires i == |results| && i < |CANONICAL_VALIDATORS| && Recorded(results, status)
    ensures Blocked(results, i) <==> FirstFailed(Prerequisites(CANONICAL_VALIDATORS[i].id), status).Some?
  {
    hide Prerequisites, CANONICAL_VALIDATORS;
    var p := FirstFailed(Prerequisites(CANONICAL_VALIDATORS[i].id), status);
    if p.Some? {
      var j :| 0 <= j < |results| && results[j].validatorId == p.value;
      assert results[j].status == FAIL;
    }
  }

  lemma OnePrerequisite(v: ValidatorId, p: ValidatorId)
    requires p in Prerequisites(v)
    ensures (set q | q in Prerequisites(v) :: PrerequisiteFailed(q)) == {PrerequisiteFailed(p)} == SetOf([PrerequisiteFailed(p)])
  {
    assert Prerequisites(v) == [p];
  }

  lemma SpecHasChecks(i: nat)
    requires i < |CANONICAL_VALIDATORS|
    ensures CANONICAL_VALIDATORS[i].checkIds != []
    ensures forall j :: 0 <= j < |CANONICAL_VALIDATORS| && j != i ==> CANONICAL_VALIDATORS[j].id != CANONICAL_VALIDATORS[i].id
  {
  }

  lemma BlockedBefore(results: seq<EvidenceCore>, core: EvidenceCore, k: nat)
    requires k <= |results| && k < |CANONICAL_VALIDATORS|
    ensures Blocked(results + [core], k) <==> Blocked(results, k)
  {
    hide Prerequisites;
    var grown := results + [core];
    assert forall j :: 0 <= j < k ==> grown[j] == results[j];
    if Blocked(results, k) {
      var j :| 0 <= j < k && results[j].validatorId in Prerequisites(CANONICAL_VALIDATORS[k].id) && results[j].status == FAIL;
      assert grown[j].status == FAIL;
    }
  }

  lemma AddsResult(results: seq<EvidenceCore>, i: nat, core: EvidenceCore, status: map<ValidatorId, EvidenceStatus>,
                   checks: seq<Check>, subjectDigest: Id, profileDigest: Digest, contract: Id)
    requires i < |CANONICAL_VALIDATORS| && Evaluated(results, i, checks, subjectDigest, profileDigest, contract)
    requires Recorded(results, status)
    requires var spec := CANONICAL_VALIDATORS[i];
             && core.validatorId == spec.id && core.validatorVersion == VALIDATOR_VERSION
             && core.subjectDigest == subjectDigest && core.profileDigest == profileDigest && core.executionContractHash == contract
             && core.trustClass == DeeprunExecuted
             && core.status == (if Blocked(results, i) then SKIPPED else StatusFor(checks, spec.checkIds))
             && SetOf(core.reasonCodes) == (
                  if Blocked(results, i) then set p | p in Prerequisites(spec.id) :: PrerequisiteFailed(p)
                  else ReasonsFor(checks, spec.checkIds))
    ensures Evaluated(results + [core], i + 1, checks, subjectDigest, profileDigest, contract)
    ensures Recorded(results + [core], status[core.validatorId := core.status])
  {
    hide StatusFor, ReasonsFor, Prerequisites, CANONICAL_VALIDATORS;
    var grown := results + [core];
    SpecHasChecks(i);
    forall k | 0 <= k <= i
      ensures ResultFor(grown, k, checks, subjectDigest, profileDigest, contract)
    {
      BlockedBefore(results, core, k);
      if k < i { assert ResultFor(results, k, checks, subjectDigest, profileDigest, contract); }
    }
    forall j | 0 <= j < |results|
      ensures results[j].validatorId != core.validatorId
    {
      assert ResultFor(results, j, checks, subjectDigest, profileDigest, contract);
    }
    var updated := status[core.validatorId := core.status];
    forall v | v in updated
      ensures exists j :: 0 <= j < |grown| && grown[j].validatorId == v
    {
      if v == core.validatorId {
        assert grown[i].validatorId == v;
      } else {
        var j :| 0 <= j < |results| && results[j].validatorId == v;
        assert grown[j].validatorId == v;
      }
    }
  }

  // ---- the verdict -------------------------------------------------------------------------------------------

  /** The checks the built-in profile expects. */
  const EXPECTED_CHECKS: seq<CheckId> := [
    ArchitectureCheck, ProductionConfigCheck, InstallCheck, MigrationCheck, SeedCheck,
    TypecheckCheck, BuildCheck, TestsCheck, BootCheck
  ]

  lemma ExpectedAreTheSpecs(checks: seq<Check>)
    ensures AllPass(checks, EXPECTED_CHECKS) <==>
      forall i :: 0 <= i < |CANONICAL_VALIDATORS| ==> AllPass(checks, CANONICAL_VALIDATORS[i].checkIds)
  {
    hide Passes;
    var e, c := EXPECTED_CHECKS, CANONICAL_VALIDATORS;
    if AllPass(checks, e) {
      assert Passes(checks, e[0]) && Passes(checks, e[1]) && Passes(checks, e[2]) && Passes(checks, e[3]) && Passes(checks, e[4])
          && Passes(checks, e[5]) && Passes(checks, e[6]) && Passes(checks, e[7]) && Passes(checks, e[8]);
    }
    if forall i :: 0 <= i < |c| ==> AllPass(checks, c[i].checkIds) {
      assert Passes(checks, c[0].checkIds[0]) && Passes(checks, c[0].checkIds[1]) && Passes(checks, c[1].checkIds[0])
          && Passes(checks, c[2].checkIds[0]) && Passes(checks, c[2].checkIds[1]) && Passes(checks, c[3].checkIds[0])
          && Passes(checks, c[4].checkIds[0]) && Passes(checks, c[5].checkIds[0]) && Passes(checks, c[6].checkIds[0]);
    }
  }

  lemma PassingIsNotFailing(checks: seq<Check>, ids: seq<CheckId>)
    ensures StatusFor(checks, ids) == PASS <==> AllPass(checks, ids)
    ensures StatusFor(checks, ids) != ERROR
  {
  }

  /** Every validator passes exactly when every expected check does; none is ever in error. */
  lemma AllPassExactlyWhenChecksPass(results: seq<EvidenceCore>, checks: seq<Check>, subjectDigest: Id,
                                     profileDigest: Digest, contract: Id)
    requires Evaluated(results, |CANONICAL_VALIDATORS|, checks, subjectDigest, profileDigest, contract)
    ensures (forall i :: 0 <= i < |results| ==> results[i].status == PASS) <==> AllPass(checks, EXPECTED_CHECKS)
    ensures forall i :: 0 <= i < |results| ==> results[i].status != ERROR
  {
    hide StatusFor, ReasonsFor, Prerequisites, AllPass, EXPECTED_CHECKS, CANONICAL_VALIDATORS;
    ExpectedAreTheSpecs(checks);
    forall i | 0 <= i < |results|
      ensures results[i].status == (if Blocked(results, i) then SKIPPED else StatusFor(checks, CANONICAL_VALIDATORS[i].checkIds))
      ensures StatusFor(checks, CANONICAL_VALIDATORS[i].checkIds) == PASS <==> AllPass(checks, CANONICAL_VALIDATORS[i].checkIds)
      ensures results[i].status != ERROR
    {
      assert ResultFor(results, i, checks, subjectDigest, profileDigest, contract);
      PassingIsNotFailing(checks, CANONICAL_VALIDATORS[i].checkIds);
    }
  }

  function EntryOf(core: EvidenceCore): ManifestEntry {
    ManifestEntry(core.validatorId, core.validatorVersion, CoreDigest(core))
  }

  /** The manifest built from the results, whatever order its entries were sorted into. */
  ghost predicate ManifestOf(m: ManifestCore, results: seq<EvidenceCore>) {
    && (forall e :: e in m.entries ==> exists i :: 0 <= i < |results| && e == EntryOf(results[i]))
    && (forall i :: 0 <= i < |results| ==> EntryOf(results[i]) in m.entries)
  }

  /** Sorting the entries by any total order gives such a manifest. */
  lemma SortedEntriesAreAManifest(le: (ManifestEntry, ManifestEntry) -> bool, m: ManifestCore, results: seq<EvidenceCore>)
    requires TotalPreorder(le)
    requires m.entries == Sort(le, seq(|results|, i requires 0 <= i < |results| => EntryOf(results[i])))
    ensures ManifestOf(m, results)
  {
    hide TotalPreorder, Sort, EntryOf;
    var entries := seq(|results|, i requires 0 <= i < |results| => EntryOf(results[i]));
    SortKeepsElements(le, entries);
    forall e | e in m.entries
      ensures exists i :: 0 <= i < |results| && e == EntryOf(results[i])
    {
      var i :| 0 <= i < |entries| && entries[i] == e;
      assert e == EntryOf(results[i]);
    }
    forall i | 0 <= i < |results|
      ensures EntryOf(results[i]) in m.entries
    {
      assert entries[i] in entries;
    }
  }

  lemma {:induction false} OnlyEntryIsLast(entries: seq<ManifestEntry>, e: ManifestEntry)
    requires e in entries && forall x :: x in entries && x.validatorId == e.validatorId ==> x == e
    ensures LastEntry(entries, e.validatorId) == Some(e)
  {
    var last := entries[|entries| - 1];
    if last.validatorId != e.validatorId {
      assert entries == entries[..|entries| - 1] + [last];
      OnlyEntryIsLast(entries[..|entries| - 1], e);
    }
  }

  lemma ManifestHoldsResults(m: ManifestCore, results: seq<EvidenceCore>, i: nat)
    requires ManifestOf(m, results) && i < |results|
    requires forall j :: 0 <= j < |results| && j != i ==> results[j].validatorId != results[i].validatorId
    ensures ManifestEvidence(m, results[i].validatorId) == Some(results[i])
  {
    var e := EntryOf(results[i]);
    forall x | x in m.entries && x.validatorId == e.validatorId
      ensures x == e
    {
      var j :| 0 <= j < |results| && x == EntryOf(results[j]);
      assert j == i;
    }
    OnlyEntryIsLast(m.entries, e);
  }

  ghost predicate Names(validators: seq<ValidatorRef>, v: ValidatorId) {
    exists k :: 0 <= k < |validators| && validators[k].id == v
  }

  /** The profile names the canonical validators and nothing else. */
  ghost predicate NamesCanonical(validators: seq<ValidatorRef>) {
    && (forall k :: 0 <= k < |validators| ==> exists i :: 0 <= i < |CANONICAL_VALIDATORS| && CANONICAL_VALIDATORS[i].id == validators[k].id)
    && (forall i :: 0 <= i < |CANONICAL_VALIDATORS| ==> Names(validators, CANONICAL_VALIDATORS[i].id))
  }

  /** What weighing comes to when every required core is there and in order. */
  lemma {:induction false} WeighInOrder(validators: seq<ValidatorRef>, evidence: map<ValidatorId, EvidenceCore>, a: Authority)
    requires forall k :: 0 <= k < |validators| ==>
      validators[k].id in evidence && WeighCore(Some(evidence[validators[k].id]), a).Reasons?
    ensures Weigh(validators, evidence, a).Reasons?
    ensures Weigh(validators, evidence, a).reasons == {} <==>
      forall k :: 0 <= k < |validators| ==> evidence[validators[k].id].status == PASS
  {
    if validators != [] {
      var front := validators[..|validators| - 1];
      assert forall k :: 0 <= k < |front| ==> front[k] == validators[k];
      WeighInOrder(front, evidence, a);
      var core := evidence[validators[|validators| - 1].id];
      assert ReasonsOfCore(core) == {} <==> core.status == PASS by {
        if core.status == FAIL { assert RequiredEvidenceFailed in ReasonsOfCore(core); }
        if core.status == SKIPPED { assert RequiredEvidenceSkipped in ReasonsOfCore(core); }
      }
    }
  }

  ghost predicate HasCore(results: seq<EvidenceCore>, core: EvidenceCore) {
    exists i :: 0 <= i < |results| && results[i] == core
  }

  ghost predicate Found(validators: seq<ValidatorRef>, evidence: map<ValidatorId, EvidenceCore>, core: EvidenceCore) {
    exists k :: 0 <= k < |validators| && validators[k].id in evidence && evidence[validators[k].id] == core
  }

  /** What the manifest holds for canonical validator i is result i. */
  lemma ManifestAt(checks: seq<Check>, a: Authority, results: seq<EvidenceCore>, m: ManifestCore, i: nat)
    requires Evaluated(results, |CANONICAL_VALIDATORS|, checks, a.subjectDigest, a.profileDigest, a.executionContractHash)
    requires ManifestOf(m, results) && i < |results|
    ensures ManifestEvidence(m, CANONICAL_VALIDATORS[i].id) == Some(results[i])
  {
    hide Evaluated, CANONICAL_VALIDATORS, ManifestEvidence, ManifestOf, WeighCore;
    ResultCount(results, checks, a);
    ResultIsWeighable(results, i, checks, a);
    ManifestHoldsResults(m, results, i);
  }

  /** The evidence the issuer gathers is the results, one for each validator of the profile. */
  lemma EvidenceIsResults(checks: seq<Check>, a: Authority, results: seq<EvidenceCore>, m: ManifestCore,
                          validators: seq<ValidatorRef>,
                          evidence: map<ValidatorId, EvidenceCore>)
    requires Evaluated(results, |CANONICAL_VALIDATORS|, checks, a.subjectDigest, a.profileDigest, a.executionContractHash)
    requires ManifestOf(m, results) && NamesCanonical(validators) && Gathered(evidence, m)
    requires forall k :: 0 <= k < |validators| && ManifestEvidence(m, validators[k].id).Some? ==> validators[k].id in evidence
    ensures forall k :: 0 <= k < |validators| ==> validators[k].id in evidence && HasCore(results, evidence[validators[k].id])
    ensures forall i :: 0 <= i < |results| ==> Found(validators, evidence, results[i])
  {
    hide Evaluated, CANONICAL_VALIDATORS, ManifestEvidence, ManifestOf, Gathered, HasCore, Found;
    ResultCount(results, checks, a);
    forall k | 0 <= k < |validators|
      ensures validators[k].id in evidence && HasCore(results, evidence[validators[k].id])
    {
      var i :| 0 <= i < |CANONICAL_VALIDATORS| && CANONICAL_VALIDATORS[i].id == validators[k].id;
      ManifestAt(checks, a, results, m, i);
      GatheredAt(results, validators, evidence, m, k, i);
    }
    forall i | 0 <= i < |results|
      ensures Found(validators, evidence, results[i])
    {
      assert Names(validators, CANONICAL_VALIDATORS[i].id);
      var k :| 0 <= k < |validators| && validators[k].id == CANONICAL_VALIDATORS[i].id;
      ManifestAt(checks, a, results, m, i);
      GatheredAt(results, validators, evidence, m, k, i);
    }
  }

  lemma GatheredAt(results: seq<EvidenceCore>, validators: seq<ValidatorRef>,
                   evidence: map<ValidatorId, EvidenceCore>, m: ManifestCore, k: nat, i: nat)
    requires k < |validators| && i < |results| && Gathered(evidence, m) && validators[k].id in evidence
    requires ManifestEvidence(m, validators[k].id) == Some(results[i])
    ensures HasCore(results, evidence[validators[k].id]) && Found(validators, evidence, results[i])
  {
    hide ManifestEvidence;
    assert evidence[validators[k].id] == results[i];
  }

  lemma ResultCount(results: seq<EvidenceCore>, checks: seq<Check>, a: Authority)
    requires Evaluated(results, |CANONICAL_VALIDATORS|, checks, a.subjectDigest, a.profileDigest, a.executionContractHash)
    ensures |results| == |CANONICAL_VALIDATORS|
  {
  }

  /** Adapter, evidence, manifest and issuer together: for any list of checks in any order, the issuer reaches a decision, and it
    * is to pass exactly when each expected check was produced and its last occurrence passed. */
  lemma VerdictIsTheChecks(checks: seq<Check>, a: Authority, results: seq<EvidenceCore>, m: ManifestCore,
                           validators: seq<ValidatorRef>,
                           evidence: map<ValidatorId, EvidenceCore>, manifestHash: Digest, contractJson: Id)
    requires Evaluated(results, |CANONICAL_VALIDATORS|, checks, a.subjectDigest, a.profileDigest, a.executionContractHash)
    requires ManifestOf(m, results) && NamesCanonical(validators) && Gathered(evidence, m)
    requires forall k :: 0 <= k < |validators| && ManifestEvidence(m, validators[k].id).Some? ==> validators[k].id in evidence
    ensures var w := Weigh(validators, evidence, a);
            && w.Reasons?
            && (DecisionOf(a, manifestHash, contractJson, w.reasons).decision == Passed <==> AllPass(checks, EXPECTED_CHECKS))
  {
    hide AllPass, EXPECTED_CHECKS, CANONICAL_VALIDATORS, Weigh, ManifestEvidence, Evaluated, ManifestOf, NamesCanonical, Gathered, WeighCore;
    AllPassExactlyWhenChecksPass(results, checks, a.subjectDigest, a.profileDigest, a.executionContractHash);
    EvidenceIsResults(checks, a, results, m, validators, evidence);
    forall i | 0 <= i < |results|
      ensures WeighCore(Some(results[i]), a).Reasons?
    {
      ResultIsWeighable(results, i, checks, a);
    }
    WeighInOrder(validators, evidence, a);
  }

  lemma ResultIsWeighable(results: seq<EvidenceCore>, i: nat, checks: seq<Check>, a: Authority)
    requires Evaluated(results, |CANONICAL_VALIDATORS|, checks, a.subjectDigest, a.profileDigest, a.executionContractHash)
    requires i < |results|
    ensures results[i].validatorId == CANONICAL_VALIDATORS[i].id && WeighCore(Some(results[i]), a).Reasons?
    ensures forall j :: 0 <= j < |results| && j != i ==> results[j].validatorId != results[i].validatorId
  {
    hide StatusFor, ReasonsFor, Prerequisites, CANONICAL_VALIDATORS;
    assert ResultFor(results, i, checks, a.subjectDigest, a.profileDigest, a.executionContractHash);
    AllPassExactlyWhenChecksPass(results, checks, a.subjectDigest, a.profileDigest, a.executionContractHash);
    SpecHasChecks(i);
    forall j | 0 <= j < |results| && j != i
      ensures results[j].validatorId != results[i].validatorId
    {
      assert ResultFor(results, j, checks, a.subjectDigest, a.profileDigest, a.executionContractHash);
    }
  }
}
