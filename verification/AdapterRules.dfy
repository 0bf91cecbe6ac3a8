/** The seven results of the canonical adapter, said on the list of checks it is given. */
module AdapterRules {
  import opened Wrappers
  import opened EvidenceRecords
  import opened DecisionRules
  import opened CanonicalAdapter

  // ---- the last occurrence of a check counts -----------------------------------------------------------------

  ghost predicate LastIs(checks: seq<Check>, id: CheckId, status: CheckStatus) {
    exists i :: 0 <= i < |checks| && checks[i] == Check(id, status) && NotAfter(checks, id, i)
  }

  predicate NotAfter(checks: seq<Check>, id: CheckId, i: nat) {
    forall j :: i < j < |checks| ==> checks[j].id != id
  }

  predicate Absent(checks: seq<Check>, id: CheckId) {
    forall j :: 0 <= j < |checks| ==> checks[j].id != id
  }

  lemma LastIsHere(checks: seq<Check>, id: CheckId, s: CheckStatus)
    requires checks != [] && checks[|checks| - 1].id == id
    ensures LastIs(checks, id, s) <==> checks[|checks| - 1].status == s
  {
    var n := |checks| - 1;
    if checks[n].status == s { assert checks[n] == Check(id, s) && NotAfter(checks, id, n); }
    if i :| 0 <= i < |checks| && checks[i] == Check(id, s) && NotAfter(checks, id, i) { assert i == n; }
  }

  lemma NotAfterFront(checks: seq<Check>, id: CheckId, i: nat)
    requires checks != [] && checks[|checks| - 1].id != id && i < |checks| - 1
    ensures NotAfter(checks, id, i) <==> NotAfter(checks[..|checks| - 1], id, i)
  {
    var front := checks[..|checks| - 1];
    assert forall j :: 0 <= j < |front| ==> front[j] == checks[j];
  }

  lemma LastIsBefore(checks: seq<Check>, id: CheckId, s: CheckStatus)
    requires checks != [] && checks[|checks| - 1].id != id
    ensures LastIs(checks, id, s) <==> LastIs(checks[..|checks| - 1], id, s)
  {
    hide NotAfter;
    var front := checks[..|checks| - 1];
    if i :| 0 <= i < |front| && front[i] == Check(id, s) && NotAfter(front, id, i) {
      NotAfterFront(checks, id, i);
      assert checks[i] == Check(id, s) && NotAfter(checks, id, i);
    }
    if i :| 0 <= i < |checks| && checks[i] == Check(id, s) && NotAfter(checks, id, i) {
      NotAfterFront(checks, id, i);
      assert front[i] == Check(id, s) && NotAfter(front, id, i);
    }
  }

  lemma {:induction false} LastCheckIs(checks: seq<Check>, id: CheckId, s: CheckStatus)
    ensures LastCheck(checks, id) == Some(s) <==> LastIs(checks, id, s)
    ensures LastCheck(checks, id).None? <==> Absent(checks, id)
  {
    if checks != [] {
      hide LastIs;
      if checks[|checks| - 1].id == id { LastIsHere(checks, id, s); } else { LastIsBefore(checks, id, s); }
      LastCheckIs(checks[..|checks| - 1], id, s);
      AbsentOf(checks, id);
      hide Absent;
    }
  }

  lemma AbsentOf(checks: seq<Check>, id: CheckId)
    requires checks != []
    ensures Absent(checks, id) <==> checks[|checks| - 1].id != id && Absent(checks[..|checks| - 1], id)
  {
    assert forall j :: 0 <= j < |checks| - 1 ==> checks[..|checks| - 1][j] == checks[j];
  }

  /** The three ways a check can stand, and its absence. */
  lemma ChecksStand(checks: seq<Check>, id: CheckId)
    ensures Passes(checks, id) <==> LastIs(checks, id, CheckPass)
    ensures Fails(checks, id) <==> LastIs(checks, id, CheckFail)
    ensures LastCheck(checks, id) == Some(CheckSkip) <==> LastIs(checks, id, CheckSkip)
    ensures LastCheck(checks, id).None? <==> Absent(checks, id)
    ensures TroubleWith(checks, id) == if Absent(checks, id) then PrerequisiteCheckNotProduced
                                       else if LastIs(checks, id, CheckSkip) then CheckSkipped(id) else CheckFailed(id)
  {
    hide LastCheck, LastIs, Absent;
    LastCheckIs(checks, id, CheckPass);
    LastCheckIs(checks, id, CheckFail);
    LastCheckIs(checks, id, CheckSkip);
  }

  // ---- one validator ------------------------------------------------------------------------------------------

  /** A validator fails if one of its checks did, and passes if they all did; it is skipped otherwise and never in error. */
  ghost predicate IsStatus(checks: seq<Check>, ids: seq<CheckId>, status: EvidenceStatus) {
    && (status == FAIL <==> exists k :: 0 <= k < |ids| && LastIs(checks, ids[k], CheckFail))
    && (status == PASS <==> forall k :: 0 <= k < |ids| ==> LastIs(checks, ids[k], CheckPass))
    && status != ERROR
  }

  /** It gives each failed check as a reason, and of the others the first that did not pass, skipped or not produced. */
  ghost predicate IsReasonOf(checks: seq<Check>, ids: seq<CheckId>, r: ReasonCode) {
    || (exists k :: 0 <= k < |ids| && LastIs(checks, ids[k], CheckFail) && r == CheckFailed(ids[k]))
    || (exists k :: 0 <= k < |ids| && IsTrouble(checks, ids, k, r))
  }

  ghost predicate IsTrouble(checks: seq<Check>, ids: seq<CheckId>, k: nat, r: ReasonCode)
    requires k < |ids|
  {
    && (forall j :: 0 <= j < k ==> LastIs(checks, ids[j], CheckPass))
    && (|| (Absent(checks, ids[k]) && r == PrerequisiteCheckNotProduced)
        || (LastIs(checks, ids[k], CheckSkip) && r == CheckSkipped(ids[k])))
  }

  lemma StatusIs(checks: seq<Check>, ids: seq<CheckId>)
    requires ids != []
    ensures IsStatus(checks, ids, StatusFor(checks, ids))
  {
    hide LastIs, Passes, Fails;
    forall k | 0 <= k < |ids|
      ensures Passes(checks, ids[k]) <==> LastIs(checks, ids[k], CheckPass)
      ensures Fails(checks, ids[k]) <==> LastIs(checks, ids[k], CheckFail)
      ensures !(Passes(checks, ids[k]) && Fails(checks, ids[k]))
    {
      ChecksStand(checks, ids[k]);
      NotBoth(checks, ids[k]);
    }
    if AllPass(checks, ids) { assert Passes(checks, ids[0]); }
  }

  lemma NotBoth(checks: seq<Check>, id: CheckId)
    ensures !(Passes(checks, id) && Fails(checks, id))
    ensures Passes(checks, id) || Fails(checks, id) || LastCheck(checks, id) == Some(CheckSkip) || LastCheck(checks, id).None?
  {
    hide LastCheck;
    match LastCheck(checks, id) {
      case None =>
      case Some(CheckPass) =>
      case Some(CheckFail) =>
      case Some(CheckSkip) =>
    }
  }

  /** The first check that does not pass. */
  ghost predicate IsFirstTrouble(checks: seq<Check>, ids: seq<CheckId>, k: nat)
    requires k < |ids|
  {
    (forall j :: 0 <= j < k ==> Passes(checks, ids[j])) && !Passes(checks, ids[k])
  }

  lemma {:induction false} FirstTroubleIs(checks: seq<Check>, ids: seq<CheckId>, k: nat)
    requires k < |ids| && IsFirstTrouble(checks, ids, k)
    ensures FirstTrouble(checks, ids) == Some(TroubleWith(checks, ids[k]))
  {
    hide Passes, TroubleWith;
    var n := |ids| - 1;
    FirstTroubleMeans(checks, ids[..n]);
    assert forall j :: 0 <= j < n ==> ids[..n][j] == ids[j];
    if k < n { FirstTroubleIs(checks, ids[..n], k); }
  }

  lemma {:induction false} TroubleIsFirst(checks: seq<Check>, ids: seq<CheckId>) returns (k: nat)
    requires FirstTrouble(checks, ids).Some?
    ensures k < |ids| && IsFirstTrouble(checks, ids, k)
  {
    hide Passes, TroubleWith;
    var n := |ids| - 1;
    FirstTroubleMeans(checks, ids[..n]);
    assert forall j :: 0 <= j < n ==> ids[..n][j] == ids[j];
    if FirstTrouble(checks, ids[..n]).Some? { k := TroubleIsFirst(checks, ids[..n]); } else { k := n; }
  }

  /** The first check that does not pass is a reason of its own kind, or one of the failed ones. */
  lemma TroubleIs(checks: seq<Check>, ids: seq<CheckId>, k: nat)
    requires k < |ids| && IsFirstTrouble(checks, ids, k)
    ensures || (LastIs(checks, ids[k], CheckFail) && TroubleWith(checks, ids[k]) == CheckFailed(ids[k]))
            || IsTrouble(checks, ids, k, TroubleWith(checks, ids[k]))
  {
    hide LastIs, Passes, Fails, TroubleWith, Absent;
    ChecksStand(checks, ids[k]);
    NotBoth(checks, ids[k]);
    forall j | 0 <= j < k ensures LastIs(checks, ids[j], CheckPass) { ChecksStand(checks, ids[j]); }
  }

  lemma TroubleWas(checks: seq<Check>, ids: seq<CheckId>, k: nat, r: ReasonCode)
    requires k < |ids| && IsTrouble(checks, ids, k, r)
    ensures IsFirstTrouble(checks, ids, k) && r == TroubleWith(checks, ids[k])
  {
    hide LastIs, Passes, Fails, TroubleWith, Absent, LastCheck;
    ChecksStand(checks, ids[k]);
    PassesIsOne(checks, ids[k]);
    forall j | 0 <= j < k ensures Passes(checks, ids[j]) { ChecksStand(checks, ids[j]); }
  }

  lemma PassesIsOne(checks: seq<Check>, id: CheckId)
    ensures Passes(checks, id) ==> LastCheck(checks, id) != Some(CheckSkip) && !LastCheck(checks, id).None?
  {
    hide LastCheck;
  }

  lemma ReasonsAre(checks: seq<Check>, ids: seq<CheckId>, r: ReasonCode)
    ensures r in ReasonsFor(checks, ids) <==> IsReasonOf(checks, ids, r)
  {
    hide LastIs, Passes, Fails, TroubleWith, FirstTrouble, IsTrouble, IsFirstTrouble;
    forall k | 0 <= k < |ids| ensures Fails(checks, ids[k]) <==> LastIs(checks, ids[k], CheckFail) { ChecksStand(checks, ids[k]); }
    if FirstTrouble(checks, ids).Some? {
      var k := TroubleIsFirst(checks, ids);
      FirstTroubleIs(checks, ids, k);
      TroubleIs(checks, ids, k);
    }
    if k :| 0 <= k < |ids| && IsTrouble(checks, ids, k, r) {
      TroubleWas(checks, ids, k, r);
      FirstTroubleIs(checks, ids, k);
    }
  }

  // ---- the seven -------------------------------------------------------------------------------------------------

  /** A validator, its checks, and the place of the one whose failure it waits for. */
  datatype Place = Place(id: ValidatorId, checkIds: seq<CheckId>, after: Option<nat>)

  const SEVEN: seq<Place> := [
    Place(Structure, [ArchitectureCheck, ProductionConfigCheck], None),
    Place(Dependencies, [InstallCheck], Some(0)),
    Place(Prisma, [MigrationCheck, SeedCheck], Some(1)),
    Place(Typecheck, [TypecheckCheck], Some(2)),
    Place(Build, [BuildCheck], Some(3)),
    Place(Tests, [TestsCheck], Some(4)),
    Place(RuntimeHealth, [BootCheck], Some(4))
  ]

  lemma SevenPlaces(i: nat)
    requires i < 7
    ensures |CANONICAL_VALIDATORS| == 7 && |SEVEN| == 7
    ensures CANONICAL_VALIDATORS[i] == ValidatorSpec(SEVEN[i].id, SEVEN[i].checkIds) && SEVEN[i].checkIds != []
    ensures SEVEN[i].after.Some? ==> SEVEN[i].after.value < i && Prerequisites(SEVEN[i].id) == [SEVEN[SEVEN[i].after.value].id]
    ensures SEVEN[i].after.None? ==> Prerequisites(SEVEN[i].id) == []
    ensures forall j :: 0 <= j < 7 && j != i ==> SEVEN[j].id != SEVEN[i].id
  {
  }

  /** The result before it failed, so this validator is passed over. */
  predicate Waits(results: seq<EvidenceCore>, i: nat)
    requires i < |results| == |SEVEN|
  {
    SEVEN[i].after.Some? && SEVEN[i].after.value < i && results[SEVEN[i].after.value].status == FAIL
  }

  lemma BlockedExactlyWhen(results: seq<EvidenceCore>, i: nat)
    requires i < |results| == |SEVEN| && forall j :: 0 <= j < |results| ==> results[j].validatorId == SEVEN[j].id
    ensures i < |CANONICAL_VALIDATORS| && (Blocked(results, i) <==> Waits(results, i))
  {
    SevenPlaces(i);
    hide CANONICAL_VALIDATORS, SEVEN, Prerequisites;
    if Blocked(results, i) {
      var j :| 0 <= j < i && results[j].validatorId in Prerequisites(CANONICAL_VALIDATORS[i].id) && results[j].status == FAIL;
      SevenPlaces(j);
      assert j == SEVEN[i].after.value;
    }
  }

  /** The adapter's seven results, in order: structure, dependencies, prisma, typecheck, build, tests, runtime health. Each waits for
    * the one before it, and the last two for the build; one that waits for a failure is skipped for that reason, and any other says
    * what its own checks came to. */
  lemma SevenResults(results: seq<EvidenceCore>, checks: seq<Check>, subjectDigest: Id, profileDigest: Digest, contract: Id)
    requires Evaluated(results, |CANONICAL_VALIDATORS|, checks, subjectDigest, profileDigest, contract)
    ensures |results| == 7
    ensures forall i :: 0 <= i < 7 ==>
              && results[i].validatorId == SEVEN[i].id && results[i].validatorVersion == 100
              && results[i].subjectDigest == subjectDigest && results[i].profileDigest == profileDigest
              && results[i].executionContractHash == contract && results[i].trustClass == DeeprunExecuted
    ensures forall i :: 0 <= i < 7 ==>
              if Waits(results, i)
              then results[i].status == SKIPPED
                   && forall r :: r in results[i].reasonCodes <==> r == PrerequisiteFailed(results[SEVEN[i].after.value].validatorId)
              else IsStatus(checks, SEVEN[i].checkIds, results[i].status)
                   && forall r :: r in results[i].reasonCodes <==> IsReasonOf(checks, SEVEN[i].checkIds, r)
  {
    SevenPlaces(0);
    hide CANONICAL_VALIDATORS, SEVEN, Prerequisites, IsStatus, IsReasonOf, StatusFor, ReasonsFor;
    forall i | 0 <= i < 7
      ensures results[i].validatorId == SEVEN[i].id && results[i].validatorVersion == 100
      ensures results[i].subjectDigest == subjectDigest && results[i].profileDigest == profileDigest
      ensures results[i].executionContractHash == contract && results[i].trustClass == DeeprunExecuted
    {
      SevenPlaces(i);
      assert ResultFor(results, i, checks, subjectDigest, profileDigest, contract);
    }
    forall i | 0 <= i < 7
      ensures if Waits(results, i)
              then results[i].status == SKIPPED
                   && forall r :: r in results[i].reasonCodes <==> r == PrerequisiteFailed(results[SEVEN[i].after.value].validatorId)
              else IsStatus(checks, SEVEN[i].checkIds, results[i].status)
                   && forall r :: r in results[i].reasonCodes <==> IsReasonOf(checks, SEVEN[i].checkIds, r)
    {
      SevenPlaces(i);
      BlockedExactlyWhen(results, i);
      assert ResultFor(results, i, checks, subjectDigest, profileDigest, contract);
      StatusIs(checks, SEVEN[i].checkIds);
      forall r ensures r in ReasonsFor(checks, SEVEN[i].checkIds) <==> IsReasonOf(checks, SEVEN[i].checkIds, r) {
        ReasonsAre(checks, SEVEN[i].checkIds, r);
      }
      assert forall r :: r in results[i].reasonCodes <==> r in SetOf(results[i].reasonCodes);
    }
  }

  /** The nine checks behind a verdict that passes. */
  lemma NineChecks(checks: seq<Check>)
    ensures AllPass(checks, EXPECTED_CHECKS) <==>
              && LastIs(checks, ArchitectureCheck, CheckPass) && LastIs(checks, ProductionConfigCheck, CheckPass)
              && LastIs(checks, InstallCheck, CheckPass) && LastIs(checks, MigrationCheck, CheckPass)
              && LastIs(checks, SeedCheck, CheckPass) && LastIs(checks, TypecheckCheck, CheckPass)
              && LastIs(checks, BuildCheck, CheckPass) && LastIs(checks, TestsCheck, CheckPass)
              && LastIs(checks, BootCheck, CheckPass)
  {
    hide LastIs, Passes;
    forall id ensures Passes(checks, id) <==> LastIs(checks, id, CheckPass) { ChecksStand(checks, id); }
    var e := EXPECTED_CHECKS;
    assert |e| == 9 && e[0] == ArchitectureCheck && e[1] == ProductionConfigCheck && e[2] == InstallCheck && e[3] == MigrationCheck
        && e[4] == SeedCheck && e[5] == TypecheckCheck && e[6] == BuildCheck && e[7] == TestsCheck && e[8] == BootCheck;
  }
}
