/** What the loop's promises come to: they determine the execution, and concrete runs show where its guards do not stop it. */
module KernelRuns {
  import opened Wrappers
  import opened ValidationModes
  import opened KernelLoop
  import opened KernelExecution

  // ---- the outside determines the execution ------------------------------------------------------------

  /** An execution that came to its end: what the loop promises when it does not throw. */
  ghost predicate Outcome(cfg: Config, oracle: nat -> World, start: nat, plan: seq<Step>, prior: seq<Record>,
                          records: seq<Record>, run: Run) {
    && Unfolds(cfg, oracle, start, plan, records) && run.plan == PlanAfter(cfg, start, plan, records)
    && Ended(cfg, oracle, start, prior, records, run)
  }

  lemma {:induction false} SamePrefix(cfg: Config, oracle: nat -> World, start: nat, plan: seq<Step>, records: seq<Record>,
                                      others: seq<Record>, n: nat)
    requires Unfolds(cfg, oracle, start, plan, records) && Unfolds(cfg, oracle, start, plan, others)
    requires n <= |records| && n <= |others|
    ensures records[..n] == others[..n]
  {
    hide Observed, PlanAfter, CountersAfter, InitialCounters;
    if n > 0 {
      SamePrefix(cfg, oracle, start, plan, records, others, n - 1);
      assert UnfoldsAt(cfg, oracle, start, plan, records, n - 1) && UnfoldsAt(cfg, oracle, start, plan, others, n - 1);
    }
  }

  /** A record after which the loop goes no further. */
  predicate Stops(cfg: Config, r: Record) {
    match Decide(cfg, r)
    case StopFailed => true
    case Advance => r.last
    case _ => r.world.planned.PlannerThrows?
  }

  lemma LastOfPlan(cfg: Config, oracle: nat -> World, start: nat, plan: seq<Step>, records: seq<Record>)
    requires Unfolds(cfg, oracle, start, plan, records) && records != []
    requires Decide(cfg, records[|records| - 1]).Advance?
    ensures records[|records| - 1].last <==> start + |records| >= |PlanAfter(cfg, start, plan, records)|
  {
    hide Observed, Decide, InitialCounters, CountersAfter;
    assert UnfoldsAt(cfg, oracle, start, plan, records, |records| - 1);
  }

  lemma StopsAtTheEnd(cfg: Config, oracle: nat -> World, start: nat, plan: seq<Step>, prior: seq<Record>,
                      records: seq<Record>, run: Run)
    requires Outcome(cfg, oracle, start, plan, prior, records, run)
    ensures records == [] <==> start >= |plan|
    ensures records != [] ==> Stops(cfg, records[|records| - 1])
  {
    hide Observed, Decide, InitialCounters, CountersAfter, Delivered, RollsBack, Added;
    if records != [] {
      var n := |records| - 1;
      assert UnfoldsAt(cfg, oracle, start, plan, records, n) && UnfoldsAt(cfg, oracle, start, plan, records, 0);
      if Decide(cfg, records[n]).Advance? { LastOfPlan(cfg, oracle, start, plan, records); }
      assert records[n].world == oracle(n);
      hide UnfoldsAt, Unfolds;
    }
  }

  lemma NotBefore(cfg: Config, oracle: nat -> World, start: nat, plan: seq<Step>, prior: seq<Record>, records: seq<Record>,
                  run: Run, k: nat)
    requires Outcome(cfg, oracle, start, plan, prior, records, run) && k + 1 < |records|
    ensures !Stops(cfg, records[k])
  {
    hide Observed, Decide, InitialCounters, CountersAfter, Delivered, RollsBack, Added, PlanAfter;
    assert UnfoldsAt(cfg, oracle, start, plan, records, k);
    assert records[k].world == oracle(k);
    assert UnfoldsAt(cfg, oracle, start, plan, records, |records| - 1);
    assert FollowedUp(cfg, oracle, start, records, run.plan, k);
    if Decide(cfg, records[k]).Advance? {
      LedgerBound(cfg, oracle, start, plan, records);
    }
  }

  lemma LedgerBound(cfg: Config, oracle: nat -> World, start: nat, plan: seq<Step>, records: seq<Record>)
    requires Unfolds(cfg, oracle, start, plan, records) && records != []
    ensures start + |records| <= |PlanAfter(cfg, start, plan, records)|
  {
    hide Observed, InitialCounters, CountersAfter, Added;
    assert UnfoldsAt(cfg, oracle, start, plan, records, |records| - 1);
  }

  /** The loop's promises leave no choice: whatever meets them has these records and this run. */
  lemma ExecutionIsDetermined(cfg: Config, oracle: nat -> World, start: nat, plan: seq<Step>, prior: seq<Record>,
                              records: seq<Record>, run: Run, others: seq<Record>, other: Run)
    requires Outcome(cfg, oracle, start, plan, prior, records, run) && Outcome(cfg, oracle, start, plan, prior, others, other)
    ensures records == others && run == other
  {
    hide Unfolds, PlanAfter, Decide, RollsBack, FollowedUp, Stops;
    var n := if |records| < |others| then |records| else |others|;
    SamePrefix(cfg, oracle, start, plan, records, others, n);
    assert n > 0 ==> records[n - 1] == records[..n][n - 1] == others[..n][n - 1] == others[n - 1];
    StopsAtTheEnd(cfg, oracle, start, plan, prior, records, run);
    StopsAtTheEnd(cfg, oracle, start, plan, prior, others, other);
    forall k | 0 <= k < |records| - 1 ensures !Stops(cfg, records[k]) { NotBefore(cfg, oracle, start, plan, prior, records, run, k); }
    forall k | 0 <= k < |others| - 1 ensures !Stops(cfg, others[k]) { NotBefore(cfg, oracle, start, plan, prior, others, other, k); }
    assert |records| == |others|;
    assert records == records[..n] && others == others[..n];
  }

  /** Records none of which stops the loop are the first ones of whatever the execution comes to. */
  lemma RunsOn(cfg: Config, oracle: nat -> World, start: nat, plan: seq<Step>, prior: seq<Record>, records: seq<Record>,
               others: seq<Record>, other: Run)
    requires Unfolds(cfg, oracle, start, plan, records) && (forall k :: 0 <= k < |records| ==> !Stops(cfg, records[k]))
    requires Outcome(cfg, oracle, start, plan, prior, others, other) && start < |plan|
    ensures |records| < |others| && others[..|records|] == records
  {
    hide Unfolds, PlanAfter, Decide, RollsBack, FollowedUp, Stops, Finishes, Ended;
    var n := if |records| < |others| then |records| else |others|;
    SamePrefix(cfg, oracle, start, plan, records, others, n);
    StopsAtTheEnd(cfg, oracle, start, plan, prior, others, other);
    if n > 0 { assert records[n - 1] == records[..n][n - 1] == others[..n][n - 1] == others[n - 1]; }
    assert n == |records| ==> records[..n] == records;
  }

  // ---- a repeated failure in enforce mode -----------------------------------------------------------------

  lemma CountersOfOne(step: Step)
    ensures InitialCounters([step]) == Counters(if step.prefix == RuntimeCorrectionId then 1 else 0,
                                                if step.prefix == ValidationCorrectionId then 1 else 0, None, None)
  {
    assert [step][..|[step]| - 1] == [];
    assert CountPrefix([], RuntimeCorrectionId) == 0 && CountPrefix([], ValidationCorrectionId) == 0;
  }

  const PREVIEW_CHECK := Step(PlainId, PlainId, Verify, RunPreviewContainer, false)
  const PREVIEW_FIX := Step(RuntimeCorrectionId, RuntimeCorrectionId, Modify, OtherTool, true)
  const PREVIEW_FAILS := World(true, true, false, Committed(true), false, false, 7, false, HeavyOk, false, true, false,
                               Planned(OtherTool, true), false)
  const TWO_CORRECTIONS := Config(2, 0, Off, Enforce, Off, false, false)

  const FAILED_ONCE := Record(0, PREVIEW_CHECK, Counters(0, 0, None, None), PREVIEW_FAILS, true, false, false, false)
  const FIXED := Record(1, PREVIEW_FIX, Counters(1, 0, Some(7), None), PREVIEW_FAILS, false, true, true, false)
  const FAILED_AGAIN := Record(2, PREVIEW_CHECK, Counters(1, 0, Some(7), None), PREVIEW_FAILS, true, false, false, false)

  function AlwaysFails(k: nat): World {
    PREVIEW_FAILS
  }

  lemma FailsOnce()
    ensures var plan := [PREVIEW_CHECK];
            && Unfolds(TWO_CORRECTIONS, AlwaysFails, 0, plan, [FAILED_ONCE])
            && PlanAfter(TWO_CORRECTIONS, 0, plan, [FAILED_ONCE]) == [PREVIEW_CHECK, PREVIEW_FIX, PREVIEW_CHECK]
            && Decide(TWO_CORRECTIONS, FAILED_ONCE).QueueRuntime?
  {
    var plan := [PREVIEW_CHECK];
    assert PlanAfter(TWO_CORRECTIONS, 0, plan, []) == plan;
    CountersOfOne(PREVIEW_CHECK);
    assert Observed(TWO_CORRECTIONS, Counters(0, 0, None, None), 0, PREVIEW_CHECK, PREVIEW_FAILS, true) == FAILED_ONCE;
    assert Added(TWO_CORRECTIONS, FAILED_ONCE) == [PREVIEW_FIX, PREVIEW_CHECK];
    hide Observed, Added, InitialCounters;
    UnfoldGrows(TWO_CORRECTIONS, AlwaysFails, 0, plan, [], FAILED_ONCE);
  }

  lemma IsFixed()
    ensures var plan := [PREVIEW_CHECK];
            && Unfolds(TWO_CORRECTIONS, AlwaysFails, 0, plan, [FAILED_ONCE, FIXED])
            && PlanAfter(TWO_CORRECTIONS, 0, plan, [FAILED_ONCE, FIXED]) == [PREVIEW_CHECK, PREVIEW_FIX, PREVIEW_CHECK]
            && Decide(TWO_CORRECTIONS, FIXED).Advance?
  {
    var plan := [PREVIEW_CHECK];
    FailsOnce();
    CountersOfOne(PREVIEW_CHECK);
    assert CountersAfter(TWO_CORRECTIONS, InitialCounters(plan), [FAILED_ONCE]) == FIXED.at;
    assert Observed(TWO_CORRECTIONS, FIXED.at, 1, PREVIEW_FIX, PREVIEW_FAILS, false) == FIXED;
    assert Added(TWO_CORRECTIONS, FIXED) == [];
    hide Observed, Added, InitialCounters, Unfolds, PlanAfter, CountersAfter;
    UnfoldGrows(TWO_CORRECTIONS, AlwaysFails, 0, plan, [FAILED_ONCE], FIXED);
    assert [FAILED_ONCE] + [FIXED] == [FAILED_ONCE, FIXED];
  }

  lemma FailsAgain()
    ensures var plan, records := [PREVIEW_CHECK], [FAILED_ONCE, FIXED, FAILED_AGAIN];
            && Unfolds(TWO_CORRECTIONS, AlwaysFails, 0, plan, records)
            && Unconverged(TWO_CORRECTIONS, FAILED_AGAIN.at, PREVIEW_CHECK, PREVIEW_FAILS)
            && Decide(TWO_CORRECTIONS, FAILED_AGAIN).QueueRuntime?
  {
    var plan := [PREVIEW_CHECK];
    IsFixed();
    CountersOfOne(PREVIEW_CHECK);
    assert CountersAfter(TWO_CORRECTIONS, InitialCounters(plan), [FAILED_ONCE, FIXED]) == FAILED_AGAIN.at;
    assert Observed(TWO_CORRECTIONS, FAILED_AGAIN.at, 2, PREVIEW_CHECK, PREVIEW_FAILS, true) == FAILED_AGAIN;
    hide Observed, Added, InitialCounters, Unfolds, PlanAfter, CountersAfter;
    UnfoldGrows(TWO_CORRECTIONS, AlwaysFails, 0, plan, [FAILED_ONCE, FIXED], FAILED_AGAIN);
    assert [FAILED_ONCE, FIXED] + [FAILED_AGAIN] == [FAILED_ONCE, FIXED, FAILED_AGAIN];
  }

  lemma GoesOnAfterRepeatedFailure(records: seq<Record>, run: Run)
    requires Outcome(TWO_CORRECTIONS, AlwaysFails, 0, [PREVIEW_CHECK], [], records, run)
    ensures |records| > 3 && records[0] == FAILED_ONCE && records[1] == FIXED && records[2] == FAILED_AGAIN
    ensures FollowedUp(TWO_CORRECTIONS, AlwaysFails, 0, records, run.plan, 2)
  {
    FailsOnce();
    IsFixed();
    FailsAgain();
    hide Decide, Unfolds, PlanAfter, FollowedUp, RollsBack, Finishes, Unconverged;
    var first := [FAILED_ONCE, FIXED, FAILED_AGAIN];
    RunsOn(TWO_CORRECTIONS, AlwaysFails, 0, [PREVIEW_CHECK], [], first, records, run);
    assert records[0] == records[..3][0] && records[1] == records[..3][1] && records[2] == records[..3][2];
    assert 2 < |records| - 1;
  }

  /** A call of the loop in `enforce` mode, on a check that fails, is corrected, and fails with the same signature again: the rollback
    * reason is set, and still the loop goes on with another correction. */
  method RunRepeatedFailure() returns (run: Run, steps: seq<Record>)
    ensures TWO_CORRECTIONS.convergence == Enforce && |steps| > 3
    ensures steps[0].step == steps[2].step && RuntimeVerify(steps[0].step) && !steps[0].completed && !steps[2].completed
    ensures steps[0].world.signature == steps[2].world.signature
    ensures IsCorrection(steps[1].step) && steps[1].completed
    ensures Unconverged(TWO_CORRECTIONS, steps[2].at, steps[2].step, steps[2].world)
    ensures IsCorrection(steps[3].step)
  {
    hide InitialCounters, Ended, Unfolds, PlanAfter, Budget, Observed, CountersAfter;
    var threw;
    ghost var records;
    run, steps, threw, records := ExecuteLoop(TWO_CORRECTIONS, [PREVIEW_CHECK], 0, [], AlwaysFails);
    assert steps == records;
    FailsAgain();
    GoesOnAfterRepeatedFailure(records, run);
    assert run.plan[3] == steps[3].step by {
      StepIsPlanned(TWO_CORRECTIONS, AlwaysFails, 0, InitialCounters([PREVIEW_CHECK]), records, run.plan, 3);
    }
    hide Ledger, Unconverged;
  }

  lemma StepIsPlanned(cfg: Config, oracle: nat -> World, start: nat, first: Counters, records: seq<Record>, plan: seq<Step>, k: nat)
    requires Ledger(cfg, oracle, start, first, records, plan) && k < |records|
    ensures start + k < |plan| && records[k].step == plan[start + k] && records[k].world == oracle(k)
  {
    hide CountersAfter;
  }

  // ---- a policy violation that is passed over ------------------------------------------------------------

  const HEAVY_FIX := Step(ValidationCorrectionId, ValidationCorrectionId, Modify, OtherTool, true)
  const BREAKS_POLICY := World(true, true, false, Committed(true), false, true, 0, false, HeavyFailed(3), false, false, false,
                               Planned(OtherTool, true), false)
  const KEEPS_POLICY := BREAKS_POLICY.(heavy := HeavyOk, policyOk := true)
  const ENFORCING := Config(0, 2, Enforce, Off, Enforce, false, false)

  const VIOLATION := Record(0, HEAVY_FIX, Counters(0, 1, None, None), BREAKS_POLICY, true, false, true, false)
  const REPAIRED := Record(1, HEAVY_FIX, Counters(0, 2, None, Some(3)), KEEPS_POLICY, true, true, true, false)

  function BreaksPolicyOnce(k: nat): World {
    if k == 0 then BREAKS_POLICY else KEEPS_POLICY
  }

  lemma ViolationIsFirst()
    ensures var plan := [HEAVY_FIX];
            && Unfolds(ENFORCING, BreaksPolicyOnce, 0, plan, [VIOLATION])
            && PlanAfter(ENFORCING, 0, plan, [VIOLATION]) == [HEAVY_FIX, HEAVY_FIX]
            && Decide(ENFORCING, VIOLATION).QueueHeavy?
  {
    var plan := [HEAVY_FIX];
    CountersOfOne(HEAVY_FIX);
    assert PlanAfter(ENFORCING, 0, plan, []) == plan;
    assert Observed(ENFORCING, VIOLATION.at, 0, HEAVY_FIX, BREAKS_POLICY, true) == VIOLATION;
    assert Added(ENFORCING, VIOLATION) == [HEAVY_FIX];
    hide Observed, Added, InitialCounters;
    UnfoldGrows(ENFORCING, BreaksPolicyOnce, 0, plan, [], VIOLATION);
  }

  lemma RepairIsLast()
    ensures var plan, records := [HEAVY_FIX], [VIOLATION, REPAIRED];
            && Unfolds(ENFORCING, BreaksPolicyOnce, 0, plan, records)
            && PlanAfter(ENFORCING, 0, plan, records) == [HEAVY_FIX, HEAVY_FIX]
            && Decide(ENFORCING, REPAIRED).Advance?
  {
    var plan := [HEAVY_FIX];
    ViolationIsFirst();
    CountersOfOne(HEAVY_FIX);
    assert CountersAfter(ENFORCING, InitialCounters(plan), [VIOLATION]) == REPAIRED.at;
    assert Observed(ENFORCING, REPAIRED.at, 1, HEAVY_FIX, KEEPS_POLICY, true) == REPAIRED;
    assert Added(ENFORCING, REPAIRED) == [];
    hide Observed, Added, InitialCounters, Unfolds, PlanAfter, CountersAfter;
    UnfoldGrows(ENFORCING, BreaksPolicyOnce, 0, plan, [VIOLATION], REPAIRED);
    assert [VIOLATION] + [REPAIRED] == [VIOLATION, REPAIRED];
    NothingAdded([HEAVY_FIX, HEAVY_FIX], 2);
  }

  lemma ViolationEndsComplete()
    ensures Outcome(ENFORCING, BreaksPolicyOnce, 0, [HEAVY_FIX], [], [VIOLATION, REPAIRED],
                    Run(Complete, 2, [HEAVY_FIX, HEAVY_FIX], false))
  {
    ViolationIsFirst();
    RepairIsLast();
    hide Unfolds, PlanAfter, Decide, RollsBack;
  }

  /** A call of the loop with policies enforced: its only correction breaks the policy and fails heavy validation, another one is
    * queued, and the run ends complete. */
  method RunPolicyViolation() returns (run: Run, steps: seq<Record>)
    ensures ENFORCING.policy == Enforce && |steps| == 2 && run.status == Complete
    ensures IsCorrection(steps[0].step) && Passed(steps[0].step, steps[0].world)
    ensures !PolicyAllows(ENFORCING, steps[0].step, steps[0].world) && !steps[0].completed
    ensures Decide(ENFORCING, steps[0]).QueueHeavy?
  {
    hide InitialCounters, Ended, Unfolds, PlanAfter, Budget, Observed, CountersAfter, Ledger;
    var threw;
    ghost var records;
    run, steps, threw, records := ExecuteLoop(ENFORCING, [HEAVY_FIX], 0, [], BreaksPolicyOnce);
    assert steps == records;
    ViolationIsFirst();
    ViolationEndsComplete();
    ExecutionIsDetermined(ENFORCING, BreaksPolicyOnce, 0, [HEAVY_FIX], [], records, run,
                          [VIOLATION, REPAIRED], Run(Complete, 2, [HEAVY_FIX, HEAVY_FIX], false));
  }
}
