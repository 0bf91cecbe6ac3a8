/** What the step loop does with each step it records, said on the recorded steps and on what the outside answered. */
module KernelRules {
  import opened Wrappers
  import opened ValidationModes
  import opened KernelLoop
  import opened KernelExecution
  import opened KernelRuns

  /** The records of an execution: each follows from those before it, and none but the last stops it. */
  ghost predicate Loops(cfg: Config, oracle: nat -> World, start: nat, plan: seq<Step>, records: seq<Record>) {
    && Unfolds(cfg, oracle, start, plan, records)
    && forall k :: 0 <= k < |records| - 1 ==> !Stops(cfg, records[k])
  }

  lemma OutcomeLoops(cfg: Config, oracle: nat -> World, start: nat, plan: seq<Step>, prior: seq<Record>, records: seq<Record>, run: Run)
    requires Outcome(cfg, oracle, start, plan, prior, records, run)
    ensures Loops(cfg, oracle, start, plan, records)
  {
    hide Unfolds, PlanAfter, Ended, Stops;
    forall k | 0 <= k < |records| - 1
      ensures !Stops(cfg, records[k])
    {
      NotBefore(cfg, oracle, start, plan, prior, records, run, k);
    }
  }

  lemma ThrownLoops(cfg: Config, oracle: nat -> World, start: nat, plan: seq<Step>, records: seq<Record>, now: seq<Step>)
    requires Unfolds(cfg, oracle, start, plan, records) && start + |records| <= |now|
    requires forall k :: 0 <= k < |records| ==> FollowedUp(cfg, oracle, start, records, now, k)
    ensures Loops(cfg, oracle, start, plan, records)
  {
    hide Observed, Decide, InitialCounters, CountersAfter, PlanAfter;
    forall k | 0 <= k < |records| - 1
      ensures !Stops(cfg, records[k])
    {
      assert FollowedUp(cfg, oracle, start, records, now, k);
      assert UnfoldsAt(cfg, oracle, start, plan, records, k);
      assert records[k].world == oracle(k);
    }
  }

  // ---- one step ---------------------------------------------------------------------------------

  predicate RuntimeCheck(step: Step) {
    step.kind == Verify && step.tool == RunPreviewContainer
  }

  /** The tool ran, what it changed was committed as it must be, and a runtime check found the service healthy. A correction has
    * to change something and to get a commit for it. */
  predicate StepOk(step: Step, w: World) {
    && w.ran
    && (step.mutates ==>
          && !w.transaction.TransactionThrows?
          && (step.prefix == RuntimeCorrectionId || step.prefix == ValidationCorrectionId ==> w.transaction == Committed(true)))
    && (RuntimeCheck(step) ==> w.runtimeOk)
  }

  predicate ValidatesHeavily(cfg: Config, r: Record) {
    cfg.heavyMode != Off && r.last && StepOk(r.step, r.world)
  }

  predicate FailsHeavily(cfg: Config, r: Record) {
    ValidatesHeavily(cfg, r) && r.world.heavy.HeavyFailed?
  }

  predicate PassesHeavily(cfg: Config, r: Record) {
    ValidatesHeavily(cfg, r) && r.world.heavy.HeavyOk?
  }

  /** A heavy failure that may be corrected: below the limit, and in enforce mode with fewer blocking failures than the one
    * carried along. */
  predicate MayCorrectHeavily(cfg: Config, r: Record) {
    && FailsHeavily(cfg, r) && r.at.heavyCount < cfg.maxHeavy
    && (cfg.convergence == Enforce && r.at.blocking.Some? ==> r.world.heavy.blocking < r.at.blocking.value)
  }

  predicate KeepsPolicy(cfg: Config, r: Record) {
    cfg.policy == Enforce && (r.step.prefix == RuntimeCorrectionId || r.step.prefix == ValidationCorrectionId) ==> r.world.policyOk
  }

  /** When a step counts as completed, when it leaves a commit, and when its failure is a broken invariant. */
  lemma CompletedExactlyWhen(cfg: Config, at: Counters, index: nat, step: Step, w: World, last: bool)
    ensures var r := Observed(cfg, at, index, step, w, last);
            && (r.completed <==>
                  && StepOk(step, w) && KeepsPolicy(cfg, r)
                  && (ValidatesHeavily(cfg, r) ==> PassesHeavily(cfg, r) || MayCorrectHeavily(cfg, r)))
            && (r.commit <==>
                  && w.ran && step.mutates
                  && (w.transaction == Committed(true) || w.transaction == TransactionThrows(true, false)
                      || w.transaction == TransactionThrows(true, true)))
            && (r.violation <==>
                  w.ran && step.mutates && w.transaction == TransactionThrows(false, true) && cfg.guardsInvariants && step.tool == AiMutation)
  {
  }

  /** A runtime check that fails with the signature of the one before, after a runtime correction. */
  predicate Repeats(r: Record) {
    RuntimeCheck(r.step) && !r.world.runtimeOk && r.at.runtimeCount > 0 && r.at.signature == Some(r.world.signature)
  }

  /** Whether the error a failed step is recorded with speaks of its tool input: of the errors it met, the last one counts. */
  predicate ToolInputFailed(cfg: Config, r: Record) {
    var w := r.world;
    || (RuntimeCheck(r.step) && !w.runtimeOk && w.runtimeMentions && !(cfg.convergence == Enforce && Repeats(r)))
    || (!(RuntimeCheck(r.step) && !w.runtimeOk) && !w.ran && w.errorMentions)
    || (!(RuntimeCheck(r.step) && !w.runtimeOk) && w.ran && !StepOk(r.step, w) && w.transactionMentions)
    || (ValidatesHeavily(cfg, r) && w.heavy.HeavyThrows? && w.heavyMentions)
    || (StepOk(r.step, w) && !KeepsPolicy(cfg, r) && w.policyMentions
        && (ValidatesHeavily(cfg, r) ==> PassesHeavily(cfg, r) || MayCorrectHeavily(cfg, r)))
  }

  predicate MayCorrectRuntime(cfg: Config, r: Record) {
    !r.completed && (RuntimeCheck(r.step) || ToolInputFailed(cfg, r)) && r.at.runtimeCount < cfg.maxRuntime
  }

  lemma HeavyRunsExactlyWhen(cfg: Config, r: Record)
    ensures Passed(r.step, r.world) <==> StepOk(r.step, r.world)
    ensures HeavyRun(cfg, r.step, r.world, r.last) == if ValidatesHeavily(cfg, r) then Some(r.world.heavy) else None
  {
  }

  /** What the loop decides about a step, on what it met. */
  lemma DecidedExactlyWhen(cfg: Config, at: Counters, index: nat, step: Step, w: World, last: bool)
    ensures var r := Observed(cfg, at, index, step, w, last);
            && (Decide(cfg, r).QueueHeavy? <==> MayCorrectHeavily(cfg, r))
            && (Decide(cfg, r).QueueRuntime? <==> !MayCorrectHeavily(cfg, r) && MayCorrectRuntime(cfg, r))
            && (Decide(cfg, r).Advance? <==> !MayCorrectHeavily(cfg, r) && r.completed)
  {
    var r := Observed(cfg, at, index, step, w, last);
    HeavyRunsExactlyWhen(cfg, r);
    CompletedExactlyWhen(cfg, at, index, step, w, last);
    MessageMentionsExactlyWhen(cfg, at, index, step, w, last);
    hide StepOk, Passed, KeepsPolicy, MessageMentions, ToolInputFailed, Observed;
  }

  lemma MessageMentionsExactlyWhen(cfg: Config, at: Counters, index: nat, step: Step, w: World, last: bool)
    ensures var r := Observed(cfg, at, index, step, w, last);
            !r.completed ==> (MessageMentions(cfg, r) <==> ToolInputFailed(cfg, r))
  {
  }

  // ---- one step after the other -------------------------------------------------------------------

  /** Record k is what the checks make of its step, with what the records before it leave. */
  lemma RecordIs(cfg: Config, oracle: nat -> World, start: nat, plan: seq<Step>, records: seq<Record>, k: nat)
    requires Unfolds(cfg, oracle, start, plan, records) && k < |records|
    ensures var now := PlanAfter(cfg, start, plan, records[..k]);
            && start + k < |now| && records[k].step == now[start + k] && records[k].index == start + k
            && records[k].world == oracle(k) && (records[k].last <==> start + k + 1 == |now|)
            && records[k] == Observed(cfg, records[k].at, start + k, records[k].step, oracle(k), records[k].last)
    ensures records[k].at == if k == 0 then InitialCounters(plan) else NextCounters(cfg, records[k - 1])
  {
    hide PlanAfter, InitialCounters, NextCounters;
    assert UnfoldsAt(cfg, oracle, start, plan, records, k);
    assert k > 0 ==> records[..k][|records[..k]| - 1] == records[k - 1];
  }

  lemma PlanMovesAt(cfg: Config, oracle: nat -> World, start: nat, plan: seq<Step>, records: seq<Record>, k: nat)
    requires Unfolds(cfg, oracle, start, plan, records) && k < |records|
    ensures var now := PlanAfter(cfg, start, plan, records[..k]);
            && start + k < |now|
            && PlanAfter(cfg, start, plan, records[..k + 1]) == Insert(now, start + k + 1, Added(cfg, records[k]))
  {
    hide Added, Insert, PlanAfter, Observed;
    RecordIs(cfg, oracle, start, plan, records, k);
    PlanMoves(cfg, start, plan, records[..k], records[k]);
    assert records[..k] + [records[k]] == records[..k + 1];
  }

  /** The corrections the planner's answer becomes, and the check that is tried again. */
  function HeavyFix(w: World): Step
    requires w.planned.Planned?
  {
    Step(ValidationCorrectionId, ValidationCorrectionId, Modify, w.planned.tool, w.planned.mutates)
  }

  function RuntimeFix(w: World): Step
    requires w.planned.Planned?
  {
    Step(RuntimeCorrectionId, RuntimeCorrectionId, Modify, w.planned.tool, w.planned.mutates)
  }

  function TriedAgain(failed: Step): Step {
    Step(failed.normalizedPrefix, failed.normalizedPrefix, Verify, RunPreviewContainer, failed.mutates)
  }

  /** What a record inserts after its step: a heavy correction, or a runtime correction and the step again, or nothing. */
  function Inserted(cfg: Config, r: Record): seq<Step> {
    if r.world.planned.PlannerThrows? then []
    else if MayCorrectHeavily(cfg, r) then [HeavyFix(r.world)]
    else if MayCorrectRuntime(cfg, r) then [RuntimeFix(r.world), TriedAgain(r.step)]
    else []
  }

  lemma AddedIs(cfg: Config, oracle: nat -> World, start: nat, plan: seq<Step>, records: seq<Record>, k: nat)
    requires Unfolds(cfg, oracle, start, plan, records) && k < |records|
    ensures Added(cfg, records[k]) == Inserted(cfg, records[k])
  {
    RecordIs(cfg, oracle, start, plan, records, k);
    hide Unfolds, PlanAfter, NextCounters, InitialCounters;
    DecidedExactlyWhen(cfg, records[k].at, start + k, records[k].step, oracle(k), records[k].last);
    hide Decide, Observed, MayCorrectHeavily, MayCorrectRuntime;
  }

  /** Each record inserts that after its step and leaves the rest of the plan as it is. */
  lemma PlanGrowsBy(cfg: Config, oracle: nat -> World, start: nat, plan: seq<Step>, records: seq<Record>, k: nat)
    requires Unfolds(cfg, oracle, start, plan, records) && k < |records|
    ensures var now := PlanAfter(cfg, start, plan, records[..k]);
            var at := start + k + 1;
            at <= |now| && PlanAfter(cfg, start, plan, records[..k + 1]) == now[..at] + Inserted(cfg, records[k]) + now[at..]
  {
    PlanMovesAt(cfg, oracle, start, plan, records, k);
    AddedIs(cfg, oracle, start, plan, records, k);
    hide Unfolds, PlanAfter, Inserted, Added;
  }

  /** Why the loop went on after record k. */
  lemma WentOnBecause(cfg: Config, oracle: nat -> World, start: nat, plan: seq<Step>, records: seq<Record>, k: nat)
    requires Unfolds(cfg, oracle, start, plan, records) && k < |records| && !Stops(cfg, records[k])
    ensures MayCorrectHeavily(cfg, records[k]) ==> records[k].world.planned.Planned?
    ensures !MayCorrectHeavily(cfg, records[k]) && !records[k].completed ==>
              MayCorrectRuntime(cfg, records[k]) && records[k].world.planned.Planned?
    ensures !MayCorrectHeavily(cfg, records[k]) && records[k].completed ==> !records[k].last
  {
    RecordIs(cfg, oracle, start, plan, records, k);
    hide Unfolds, PlanAfter, NextCounters, InitialCounters;
    DecidedExactlyWhen(cfg, records[k].at, start + k, records[k].step, oracle(k), records[k].last);
    hide Decide, Observed, MayCorrectHeavily, ToolInputFailed;
  }

  lemma InsertedIsNext(cfg: Config, oracle: nat -> World, start: nat, plan: seq<Step>, records: seq<Record>, k: nat)
    requires Unfolds(cfg, oracle, start, plan, records) && k + 1 < |records| && Inserted(cfg, records[k]) != []
    ensures records[k + 1].step == Inserted(cfg, records[k])[0]
  {
    PlanGrowsBy(cfg, oracle, start, plan, records, k);
    RecordIs(cfg, oracle, start, plan, records, k + 1);
    hide Unfolds, PlanAfter, Inserted, Observed, NextCounters;
  }

  /** The step recorded after record k. */
  lemma NextStepIs(cfg: Config, oracle: nat -> World, start: nat, plan: seq<Step>, records: seq<Record>, k: nat)
    requires Loops(cfg, oracle, start, plan, records) && k + 1 < |records|
    ensures MayCorrectHeavily(cfg, records[k]) ==>
              records[k].world.planned.Planned? && records[k + 1].step == HeavyFix(records[k].world)
    ensures !MayCorrectHeavily(cfg, records[k]) && !records[k].completed ==>
              && MayCorrectRuntime(cfg, records[k]) && records[k].world.planned.Planned?
              && records[k + 1].step == RuntimeFix(records[k].world)
    ensures !MayCorrectHeavily(cfg, records[k]) && records[k].completed ==> !records[k].last
  {
    assert !Stops(cfg, records[k]);
    hide Unfolds, Stops, MayCorrectHeavily, MayCorrectRuntime;
    WentOnBecause(cfg, oracle, start, plan, records, k);
    if Inserted(cfg, records[k]) != [] { InsertedIsNext(cfg, oracle, start, plan, records, k); }
  }

  /** Whether record k was answered by a heavy correction: nothing was planned after its step, and yet a correction follows. */
  predicate AnsweredHeavily(records: seq<Record>, k: nat)
    requires k + 1 < |records|
  {
    records[k].last && records[k + 1].step.prefix == ValidationCorrectionId
  }

  predicate AnsweredAtRuntime(records: seq<Record>, k: nat)
    requires k + 1 < |records|
  {
    !records[k].completed && records[k + 1].step.prefix == RuntimeCorrectionId
  }

  lemma AnsweredExactlyWhen(cfg: Config, oracle: nat -> World, start: nat, plan: seq<Step>, records: seq<Record>, k: nat)
    requires Loops(cfg, oracle, start, plan, records) && k + 1 < |records|
    ensures AnsweredHeavily(records, k) <==> MayCorrectHeavily(cfg, records[k])
    ensures AnsweredAtRuntime(records, k) <==> !MayCorrectHeavily(cfg, records[k]) && !records[k].completed
  {
    NextStepIs(cfg, oracle, start, plan, records, k);
    hide Loops, MayCorrectRuntime;
  }

  /** The steps of a plan with a prefix. */
  function Places(plan: seq<Step>, prefix: IdPrefix): set<nat> {
    set i | 0 <= i < |plan| && plan[i].prefix == prefix
  }

  lemma {:induction false} CountIsPlaces(plan: seq<Step>, prefix: IdPrefix)
    ensures CountPrefix(plan, prefix) == |Places(plan, prefix)|
  {
    if plan == [] {
      assert Places(plan, prefix) == {};
    } else {
      var front := plan[..|plan| - 1];
      CountIsPlaces(front, prefix);
      assert Places(plan, prefix) == Places(front, prefix) + if plan[|plan| - 1].prefix == prefix then {|plan| - 1} else {};
    }
  }

  /** The corrections made so far: those the plan began with, and one more for every record that was answered by one. */
  lemma CorrectionsAreCounted(cfg: Config, oracle: nat -> World, start: nat, plan: seq<Step>, records: seq<Record>, k: nat)
    requires Loops(cfg, oracle, start, plan, records) && k < |records|
    ensures k == 0 ==> records[k].at.runtimeCount == |Places(plan, RuntimeCorrectionId)|
                       && records[k].at.heavyCount == |Places(plan, ValidationCorrectionId)|
    ensures k > 0 ==> records[k].at.runtimeCount == records[k - 1].at.runtimeCount + (if AnsweredAtRuntime(records, k - 1) then 1 else 0)
                      && records[k].at.heavyCount == records[k - 1].at.heavyCount + (if AnsweredHeavily(records, k - 1) then 1 else 0)
  {
    RecordIs(cfg, oracle, start, plan, records, k);
    if k == 0 {
      CountIsPlaces(plan, RuntimeCorrectionId);
      CountIsPlaces(plan, ValidationCorrectionId);
    } else {
      var r := records[k - 1];
      RecordIs(cfg, oracle, start, plan, records, k - 1);
      NextStepIs(cfg, oracle, start, plan, records, k - 1);
      AnsweredExactlyWhen(cfg, oracle, start, plan, records, k - 1);
      DecidedExactlyWhen(cfg, r.at, r.index, r.step, r.world, r.last);
      hide Loops, Unfolds, Decide, Observed, MayCorrectHeavily, ToolInputFailed, NextSignature, NextBlocking, AnsweredHeavily, AnsweredAtRuntime;
    }
  }

  // ---- the convergence guard --------------------------------------------------------------------------

  predicate JudgedHeavily(cfg: Config, r: Record) {
    FailsHeavily(cfg, r) || PassesHeavily(cfg, r)
  }

  lemma BlockingMoves(cfg: Config, oracle: nat -> World, start: nat, plan: seq<Step>, records: seq<Record>, k: nat)
    requires Unfolds(cfg, oracle, start, plan, records) && k + 1 < |records|
    ensures records[k + 1].at.blocking ==
              if FailsHeavily(cfg, records[k]) then Some(records[k].world.heavy.blocking)
              else if PassesHeavily(cfg, records[k]) then None else records[k].at.blocking
  {
    RecordIs(cfg, oracle, start, plan, records, k + 1);
    HeavyRunsExactlyWhen(cfg, records[k]);
    hide Unfolds, Decide, NextSignature, StepOk, Passed;
  }

  /** A step carries along the count of the latest heavy validation that failed, and none after one that passed. */
  lemma {:induction false} LatestIsCarried(cfg: Config, oracle: nat -> World, start: nat, plan: seq<Step>, records: seq<Record>, i: nat, j: nat)
    requires Unfolds(cfg, oracle, start, plan, records) && i < j < |records|
    requires JudgedHeavily(cfg, records[i]) && forall k :: i < k < j ==> !JudgedHeavily(cfg, records[k])
    ensures records[j].at.blocking == if FailsHeavily(cfg, records[i]) then Some(records[i].world.heavy.blocking) else None
  {
    hide Unfolds, FailsHeavily, PassesHeavily;
    BlockingMoves(cfg, oracle, start, plan, records, j - 1);
    if i < j - 1 {
      assert !JudgedHeavily(cfg, records[j - 1]);
      LatestIsCarried(cfg, oracle, start, plan, records, i, j - 1);
    } else {
      assert FailsHeavily(cfg, records[i]) || PassesHeavily(cfg, records[i]);
      FailsOrPasses(cfg, records[i]);
    }
  }

  lemma FailsOrPasses(cfg: Config, r: Record)
    ensures !(FailsHeavily(cfg, r) && PassesHeavily(cfg, r))
  {
  }

  lemma {:induction false} NothingIsCarried(cfg: Config, oracle: nat -> World, start: nat, plan: seq<Step>, records: seq<Record>, j: nat)
    requires Unfolds(cfg, oracle, start, plan, records) && j < |records|
    requires forall k :: 0 <= k < j ==> !JudgedHeavily(cfg, records[k])
    ensures records[j].at.blocking == None
  {
    if j == 0 {
      RecordIs(cfg, oracle, start, plan, records, 0);
    } else {
      assert !JudgedHeavily(cfg, records[j - 1]);
      NothingIsCarried(cfg, oracle, start, plan, records, j - 1);
      BlockingMoves(cfg, oracle, start, plan, records, j - 1);
      hide Unfolds;
    }
  }

  /** A heavy validation that failed after another one, which is the latest that ran, may be corrected when fewer failures block. */
  lemma MayBeCorrectedExactlyWhen(cfg: Config, oracle: nat -> World, start: nat, plan: seq<Step>, records: seq<Record>, i: nat, j: nat)
    requires Unfolds(cfg, oracle, start, plan, records) && cfg.convergence == Enforce && i < j < |records|
    requires FailsHeavily(cfg, records[i]) && FailsHeavily(cfg, records[j])
    requires forall k :: i < k < j ==> !JudgedHeavily(cfg, records[k])
    ensures MayCorrectHeavily(cfg, records[j]) <==>
              records[j].world.heavy.blocking < records[i].world.heavy.blocking && records[j].at.heavyCount < cfg.maxHeavy
  {
    assert JudgedHeavily(cfg, records[i]);
    LatestIsCarried(cfg, oracle, start, plan, records, i, j);
    hide Unfolds, ValidatesHeavily, JudgedHeavily;
  }

  /** The plan ends with the correction then. */
  lemma FixIsAppended(cfg: Config, oracle: nat -> World, start: nat, plan: seq<Step>, records: seq<Record>, j: nat)
    requires Unfolds(cfg, oracle, start, plan, records) && j < |records|
    requires MayCorrectHeavily(cfg, records[j]) && records[j].last && records[j].world.planned.Planned?
    ensures PlanAfter(cfg, start, plan, records[..j + 1]) == PlanAfter(cfg, start, plan, records[..j]) + [HeavyFix(records[j].world)]
  {
    PlanGrowsBy(cfg, oracle, start, plan, records, j);
    RecordIs(cfg, oracle, start, plan, records, j);
    hide Unfolds, MayCorrectHeavily, PlanAfter, Observed, NextCounters;
    var now := PlanAfter(cfg, start, plan, records[..j]);
    assert start + j + 1 == |now| && now[..|now|] == now && now[|now|..] == [];
  }

  lemma OnlyTheLastFailsHeavily(cfg: Config, r: Record)
    requires FailsHeavily(cfg, r)
    ensures r.last && r.world.heavy.HeavyFailed?
  {
  }

  /** In enforce mode a heavy validation that fails after another one is answered by a heavy correction exactly when fewer failures
    * block and a heavy correction is left: i and j fail, and none between them ran. */
  lemma CorrectedExactlyWhenFewerBlock(cfg: Config, oracle: nat -> World, start: nat, plan: seq<Step>, records: seq<Record>, i: nat, j: nat)
    requires Loops(cfg, oracle, start, plan, records) && cfg.convergence == Enforce && i < j < |records|
    requires FailsHeavily(cfg, records[i]) && FailsHeavily(cfg, records[j])
    requires forall k :: i < k < j ==> !JudgedHeavily(cfg, records[k])
    ensures var falls := records[j].world.heavy.blocking < records[i].world.heavy.blocking && records[j].at.heavyCount < cfg.maxHeavy;
            && (j + 1 < |records| ==> (AnsweredHeavily(records, j) <==> falls))
            && (falls && records[j].world.planned.Planned? ==>
                  PlanAfter(cfg, start, plan, records[..j + 1]) ==
                    PlanAfter(cfg, start, plan, records[..j]) + [HeavyFix(records[j].world)])
  {
    hide Unfolds, MayCorrectHeavily, FailsHeavily, JudgedHeavily, PlanAfter, AnsweredHeavily;
    OnlyTheLastFailsHeavily(cfg, records[i]);
    OnlyTheLastFailsHeavily(cfg, records[j]);
    MayBeCorrectedExactlyWhen(cfg, oracle, start, plan, records, i, j);
    if j + 1 < |records| { AnsweredExactlyWhen(cfg, oracle, start, plan, records, j); }
    if MayCorrectHeavily(cfg, records[j]) && records[j].world.planned.Planned? { FixIsAppended(cfg, oracle, start, plan, records, j); }
    hide Loops;
  }

  /** Without the guard the counts are not compared: below the limit every heavy failure is answered. */
  lemma CorrectedWithoutTheGuard(cfg: Config, oracle: nat -> World, start: nat, plan: seq<Step>, records: seq<Record>, j: nat)
    requires Loops(cfg, oracle, start, plan, records) && j + 1 < |records| && FailsHeavily(cfg, records[j])
    requires cfg.convergence != Enforce || forall k :: 0 <= k < j ==> !JudgedHeavily(cfg, records[k])
    ensures AnsweredHeavily(records, j) <==> records[j].at.heavyCount < cfg.maxHeavy
  {
    if cfg.convergence == Enforce { NothingIsCarried(cfg, oracle, start, plan, records, j); }
    AnsweredExactlyWhen(cfg, oracle, start, plan, records, j);
    hide Loops, Unfolds, ValidatesHeavily, JudgedHeavily, AnsweredHeavily;
  }

  ghost predicate AllAnsweredHeavily(cfg: Config, records: seq<Record>, i: nat, j: nat)
    requires j < |records|
  {
    forall k :: i < k < j && FailsHeavily(cfg, records[k]) ==> AnsweredHeavily(records, k)
  }

  /** So in enforce mode the counts fall from one heavy correction to the next: if no heavy validation passes between two failures i
    * and j, and each failure between them is answered by a heavy correction, as j is, then fewer failures block at j than at i. */
  lemma {:induction false} BlockingFalls(cfg: Config, oracle: nat -> World, start: nat, plan: seq<Step>, records: seq<Record>, i: nat, j: nat)
    requires Loops(cfg, oracle, start, plan, records) && cfg.convergence == Enforce && i < j && j + 1 < |records|
    requires FailsHeavily(cfg, records[i]) && FailsHeavily(cfg, records[j]) && AnsweredHeavily(records, j)
    requires forall k :: i < k < j ==> !PassesHeavily(cfg, records[k])
    requires AllAnsweredHeavily(cfg, records, i, j)
    ensures records[j].world.heavy.blocking < records[i].world.heavy.blocking
    decreases j
  {
    hide Loops, ValidatesHeavily, PassesHeavily, AnsweredHeavily, FailsHeavily, PlanAfter;
    var l := Latest(cfg, records, i, j);
    CorrectedExactlyWhenFewerBlock(cfg, oracle, start, plan, records, l, j);
    if i < l { BlockingFalls(cfg, oracle, start, plan, records, i, l); }
    FailureHasCount(cfg, records[i]);
    FailureHasCount(cfg, records[j]);
    FailureHasCount(cfg, records[l]);
  }

  lemma FailureHasCount(cfg: Config, r: Record)
    requires FailsHeavily(cfg, r)
    ensures r.world.heavy.HeavyFailed?
  {
  }

  /** The latest heavy validation from i on and before j. */
  ghost function Latest(cfg: Config, records: seq<Record>, i: nat, j: nat): (l: nat)
    requires i < j < |records| && JudgedHeavily(cfg, records[i])
    ensures i <= l < j && JudgedHeavily(cfg, records[l]) && forall k :: l < k < j ==> !JudgedHeavily(cfg, records[k])
  {
    if i + 1 == j || JudgedHeavily(cfg, records[j - 1]) then j - 1 else Latest(cfg, records, i, j - 1)
  }

  // ---- how an execution ends ----------------------------------------------------------------------------

  /** The signature carried along is that of the latest runtime check, if it failed. */
  lemma SignatureIsCarried(cfg: Config, oracle: nat -> World, start: nat, plan: seq<Step>, records: seq<Record>, k: nat)
    requires Unfolds(cfg, oracle, start, plan, records) && k < |records|
    ensures records[k].at.signature ==
              if k == 0 then None
              else if !RuntimeCheck(records[k - 1].step) then records[k - 1].at.signature
              else if records[k - 1].world.runtimeOk then None else Some(records[k - 1].world.signature)
  {
    RecordIs(cfg, oracle, start, plan, records, k);
    hide Unfolds, Decide, NextBlocking;
  }

  lemma RollsBackExactlyWhen(cfg: Config, at: Counters, index: nat, step: Step, w: World, last: bool)
    ensures var r := Observed(cfg, at, index, step, w, last);
            RollsBack(cfg, r) <==>
              || (cfg.convergence == Enforce && Repeats(r))
              || (ValidatesHeavily(cfg, r) && !PassesHeavily(cfg, r) && !MayCorrectHeavily(cfg, r))
              || (StepOk(step, w) && !KeepsPolicy(cfg, r))
              || (RuntimeCheck(step) && at.runtimeCount >= cfg.maxRuntime)
  {
    HeavyRunsExactlyWhen(cfg, Observed(cfg, at, index, step, w, last));
    hide StepOk, Passed;
  }

  predicate Delivers(cfg: Config, steps: seq<Record>) {
    cfg.goalNeedsMutation ==>
      exists k :: 0 <= k < |steps| && steps[k].completed && ((steps[k].commit && steps[k].step.kind == Modify) || steps[k].world.noChangeProof)
  }

  lemma DeliveredExactlyWhen(cfg: Config, steps: seq<Record>)
    ensures Delivered(cfg, steps) <==> Delivers(cfg, steps)
  {
    if Delivered(cfg, steps) && cfg.goalNeedsMutation {
      var k :| 0 <= k < |steps| && (DeliversMutation(steps[k]) || ProvesNoChange(steps[k]));
      var r := steps[k];
      assert DeliversMutation(r) || ProvesNoChange(r);
      assert r.completed && ((r.commit && r.step.kind == Modify) || r.world.noChangeProof);
    }
    if Delivers(cfg, steps) && cfg.goalNeedsMutation {
      var k :| 0 <= k < |steps| && steps[k].completed && ((steps[k].commit && steps[k].step.kind == Modify) || steps[k].world.noChangeProof);
      assert DeliversMutation(steps[k]) || ProvesNoChange(steps[k]);
    }
  }

  /** An execution ends complete exactly when its last step completed with nothing planned after it, no heavy correction is to be made
    * and the goal is delivered; it is rolled back exactly when nothing more may be corrected and a guard, a policy, a heavy
    * validation or a spent limit was the reason. */
  lemma EndsExactlyWhen(cfg: Config, oracle: nat -> World, start: nat, plan: seq<Step>, prior: seq<Record>, records: seq<Record>, run: Run)
    requires Outcome(cfg, oracle, start, plan, prior, records, run) && records != []
    ensures var r := records[|records| - 1];
            var done := r.completed && r.last && !MayCorrectHeavily(cfg, r) && Delivers(cfg, prior + records);
            && run.status == (if done then Complete else Failed)
            && run.index == start + |records| - (if done then 0 else 1)
            && (run.rolledBack <==>
                  && !r.completed && !MayCorrectHeavily(cfg, r) && !MayCorrectRuntime(cfg, r)
                  && (|| (cfg.convergence == Enforce && Repeats(r))
                      || (ValidatesHeavily(cfg, r) && !PassesHeavily(cfg, r))
                      || (StepOk(r.step, r.world) && !KeepsPolicy(cfg, r))
                      || (RuntimeCheck(r.step) && r.at.runtimeCount >= cfg.maxRuntime)))
  {
    var n := |records| - 1;
    RecordIs(cfg, oracle, start, plan, records, n);
    DecidedExactlyWhen(cfg, records[n].at, start + n, records[n].step, oracle(n), records[n].last);
    RollsBackExactlyWhen(cfg, records[n].at, start + n, records[n].step, oracle(n), records[n].last);
    DeliveredExactlyWhen(cfg, prior + records);
    StopsAtTheEnd(cfg, oracle, start, plan, prior, records, run);
    hide StepOk, Delivers, Delivered, KeepsPolicy, Observed, Decide, RollsBack, MayCorrectHeavily, MayCorrectRuntime, Repeats, ValidatesHeavily, NextCounters;
    PlanMovesAt(cfg, oracle, start, plan, records, n);
    assert records[..n + 1] == records;
    NothingAdded(PlanAfter(cfg, start, plan, records[..n]), start + n + 1);
    hide Unfolds, PlanAfter, Insert;
  }

  // ---- a count that rises ---------------------------------------------------------------------------------

  const LOOKS := Step(PlainId, PlainId, Analyze, OtherTool, false)
  const FIXES := Step(ValidationCorrectionId, ValidationCorrectionId, Modify, OtherTool, true)
  const REPAIRS := Step(RuntimeCorrectionId, RuntimeCorrectionId, Modify, OtherTool, true)
  const CHECKS := Step(ValidationCorrectionId, ValidationCorrectionId, Verify, RunPreviewContainer, true)
  const FIVE_BLOCK := World(true, true, false, Committed(true), false, true, 0, false, HeavyFailed(5), false, true, false,
                            Planned(OtherTool, true), false)
  const BAD_INPUT := FIVE_BLOCK.(ran := false, errorMentions := true)
  const SEVEN_BLOCK := FIVE_BLOCK.(heavy := HeavyFailed(7))
  const SIX_BLOCK := FIVE_BLOCK.(heavy := HeavyFailed(6))
  const TWO_OF_EACH := Config(2, 2, Enforce, Enforce, Off, false, false)

  function Rising(k: nat): World {
    if k == 1 then BAD_INPUT else if k == 3 then SEVEN_BLOCK else if k == 5 then SIX_BLOCK else FIVE_BLOCK
  }

  const RISING := [
    Record(0, LOOKS, Counters(0, 0, None, None), FIVE_BLOCK, true, true, false, false),
    Record(1, FIXES, Counters(0, 1, None, Some(5)), BAD_INPUT, true, false, false, false),
    Record(2, REPAIRS, Counters(1, 1, None, Some(5)), FIVE_BLOCK, false, true, true, false),
    Record(3, CHECKS, Counters(1, 1, None, Some(5)), SEVEN_BLOCK, true, false, true, false),
    Record(4, REPAIRS, Counters(2, 1, None, Some(7)), FIVE_BLOCK, false, true, true, false),
    Record(5, CHECKS, Counters(2, 1, None, Some(7)), SIX_BLOCK, true, true, true, false)]

  /** The plan once n of those records are made. */
  function RisingPlan(n: nat): seq<Step> {
    if n == 0 then [LOOKS]
    else if n == 1 then [LOOKS, FIXES]
    else if n <= 3 then [LOOKS, FIXES, REPAIRS, CHECKS]
    else if n <= 5 then [LOOKS, FIXES, REPAIRS, CHECKS, REPAIRS, CHECKS]
    else [LOOKS, FIXES, REPAIRS, CHECKS, REPAIRS, CHECKS, FIXES]
  }

  lemma RisingRecord(k: nat)
    requires k < 6
    ensures RISING[k] == Observed(TWO_OF_EACH, RISING[k].at, k, RisingPlan(k)[k], Rising(k), k + 1 >= |RisingPlan(k)|)
    ensures k < 5 ==> NextCounters(TWO_OF_EACH, RISING[k]) == RISING[k + 1].at
    ensures Decide(TWO_OF_EACH, RISING[k]) == if k == 0 || k == 5 then QueueHeavy else if k == 1 || k == 3 then QueueRuntime else Advance
  {
  }

  lemma RisingPlanGrows(k: nat)
    requires k < 6
    ensures Insert(RisingPlan(k), k + 1, Added(TWO_OF_EACH, RISING[k])) == RisingPlan(k + 1)
    ensures !Stops(TWO_OF_EACH, RISING[k])
  {
    RisingRecord(k);
    hide Decide, Observed;
  }

  lemma RisingCounters(k: nat)
    requires k < 6
    ensures CountersAfter(TWO_OF_EACH, InitialCounters([LOOKS]), RISING[..k]) == RISING[k].at
  {
    if k == 0 {
      CountersOfOne(LOOKS);
      assert RISING[..0] == [];
    } else {
      RisingRecord(k - 1);
      hide NextCounters, Decide, Observed;
      assert RISING[..k][k - 1] == RISING[k - 1];
    }
  }

  lemma RisingStep(k: nat)
    requires k < 6
    requires Unfolds(TWO_OF_EACH, Rising, 0, [LOOKS], RISING[..k]) && PlanAfter(TWO_OF_EACH, 0, [LOOKS], RISING[..k]) == RisingPlan(k)
    ensures Unfolds(TWO_OF_EACH, Rising, 0, [LOOKS], RISING[..k] + [RISING[k]])
    ensures PlanAfter(TWO_OF_EACH, 0, [LOOKS], RISING[..k] + [RISING[k]]) == RisingPlan(k + 1)
  {
    RisingCounters(k);
    RisingRecord(k);
    RisingPlanGrows(k);
    hide Observed, Decide, NextCounters, Unfolds, PlanAfter, Stops, Insert, Added, InitialCounters, CountersAfter, RISING;
    UnfoldGrows(TWO_OF_EACH, Rising, 0, [LOOKS], RISING[..k], RISING[k]);
  }

  lemma {:induction false} RisingUnfolds(n: nat)
    requires n <= 6
    ensures Unfolds(TWO_OF_EACH, Rising, 0, [LOOKS], RISING[..n]) && PlanAfter(TWO_OF_EACH, 0, [LOOKS], RISING[..n]) == RisingPlan(n)
  {
    if n == 0 {
      assert RISING[..0] == [];
      assert PlanAfter(TWO_OF_EACH, 0, [LOOKS], []) == [LOOKS];
    } else {
      RisingUnfolds(n - 1);
      RisingStep(n - 1);
      assert RISING[..n - 1] + [RISING[n - 1]] == RISING[..n];
      hide Unfolds, PlanAfter;
    }
  }

  /** A call of the loop in enforce mode that answers a heavy validation with 6 blocking failures by a heavy correction although an
    * earlier one, answered likewise, had 5, and none passed between them: the one with 7 between them ended a runtime check, and its
    * failure was answered by a runtime correction. */
  method RunRisingCount() returns (run: Run, steps: seq<Record>)
    ensures TWO_OF_EACH.convergence == Enforce && |steps| > 6
    ensures FailsHeavily(TWO_OF_EACH, steps[0]) && steps[0].world.heavy.blocking == 5 && AnsweredHeavily(steps, 0)
    ensures FailsHeavily(TWO_OF_EACH, steps[3]) && steps[3].world.heavy.blocking == 7 && AnsweredAtRuntime(steps, 3)
    ensures FailsHeavily(TWO_OF_EACH, steps[5]) && steps[5].world.heavy.blocking == 6 && AnsweredHeavily(steps, 5)
    ensures forall k :: 0 < k < 5 ==> !PassesHeavily(TWO_OF_EACH, steps[k])
  {
    hide InitialCounters, Ended, Unfolds, PlanAfter, Budget, Observed, CountersAfter, Ledger, FollowedUp, Decide;
    var threw;
    ghost var records;
    run, steps, threw, records := ExecuteLoop(TWO_OF_EACH, [LOOKS], 0, [], Rising);
    assert steps == records;
    assert Rising(|records|).lockHeld;
    RisesFirst(records, run);
    RisesAnswered(records, run);
    assert forall k :: 0 <= k < 6 ==> steps[k] == RISING[k];
  }

  lemma RisesFirst(records: seq<Record>, run: Run)
    requires Outcome(TWO_OF_EACH, Rising, 0, [LOOKS], [], records, run)
    ensures |records| > 6 && forall k :: 0 <= k < 6 ==> records[k] == RISING[k]
  {
    RisingUnfolds(6);
    assert RISING[..6] == RISING;
    hide Decide, Unfolds, PlanAfter, FollowedUp, RollsBack, Finishes, Stops;
    forall k | 0 <= k < 6 ensures !Stops(TWO_OF_EACH, RISING[k]) { RisingPlanGrows(k); }
    hide Outcome;
    RunsOn(TWO_OF_EACH, Rising, 0, [LOOKS], [], RISING, records, run);
    forall k | 0 <= k < 6 ensures records[k] == RISING[k] { assert records[..6][k] == RISING[k]; }
  }

  lemma RisesAnswered(records: seq<Record>, run: Run)
    requires Outcome(TWO_OF_EACH, Rising, 0, [LOOKS], [], records, run)
    requires |records| > 6 && forall k :: 0 <= k < 6 ==> records[k] == RISING[k]
    ensures AnsweredHeavily(records, 5)
  {
    OutcomeLoops(TWO_OF_EACH, Rising, 0, [LOOKS], [], records, run);
    AnsweredExactlyWhen(TWO_OF_EACH, Rising, 0, [LOOKS], records, 5);
    hide Outcome, Loops, AnsweredHeavily;
    assert MayCorrectHeavily(TWO_OF_EACH, RISING[5]);
  }
}
