/** The kernel's step loop: it executes a plan that corrections are inserted into while it runs. */
module KernelLoop {
  import opened Wrappers
  import opened ValidationModes

  // ---- steps and what happens to them -----------------------------------------------------

  /** The two step-id prefixes that mark corrections. */
  datatype IdPrefix = RuntimeCorrectionId | ValidationCorrectionId | PlainId
  datatype StepKind = Analyze | Modify | Verify
  datatype Tool = AiMutation | RunPreviewContainer | OtherTool

  /** `normalizedPrefix` is the prefix of the id once unsafe characters are replaced. */
  datatype Step = Step(prefix: IdPrefix, normalizedPrefix: IdPrefix, kind: StepKind, tool: Tool, mutates: bool)

  datatype Config = Config(maxRuntime: nat, maxHeavy: nat, heavyMode: Mode, convergence: Mode, policy: Mode,
                           goalNeedsMutation: bool, guardsInvariants: bool)

  /** How the file transaction of a mutating step ends. */
  datatype Transaction =
    | NoChanges
    | Committed(hash: bool)
    | TransactionThrows(afterCommit: bool, violation: bool)

  datatype Heavy = HeavyOk | HeavyFailed(blocking: nat) | HeavyThrows

  datatype Planned = Planned(tool: Tool, mutates: bool) | PlannerThrows

  /** Everything one iteration learns from outside. The `…Mentions` flags say whether that error message has
    * "tool input validation failed" in it. */
  datatype World = World(
    lockHeld: bool, ran: bool, errorMentions: bool,
    transaction: Transaction, transactionMentions: bool,
    runtimeOk: bool, signature: nat, runtimeMentions: bool,
    heavy: Heavy, heavyMentions: bool,
    policyOk: bool, policyMentions: bool,
    planned: Planned, noChangeProof: bool)

  /** What the loop carries from one iteration to the next besides the plan. */
  datatype Counters = Counters(runtimeCount: nat, heavyCount: nat, signature: Option<nat>, blocking: Option<nat>)

  datatype Record = Record(index: nat, step: Step, at: Counters, world: World, last: bool,
                           completed: bool, commit: bool, violation: bool)

  predicate IsCorrection(step: Step) {
    step.prefix != PlainId
  }

  predicate RuntimeVerify(step: Step) {
    step.kind == Verify && step.tool == RunPreviewContainer
  }

  // ---- what one iteration must record -------------------------------------------------------

  predicate TransactionFails(step: Step, w: World) {
    match w.transaction
    case NoChanges => IsCorrection(step)
    case Committed(hash) => IsCorrection(step) && !hash
    case TransactionThrows(_, _) => true
  }

  predicate Ran(step: Step, w: World) {
    w.ran && !(step.mutates && TransactionFails(step, w))
  }

  predicate Passed(step: Step, w: World) {
    Ran(step, w) && (RuntimeVerify(step) ==> w.runtimeOk)
  }

  /** Heavy validation runs on a step that passed when nothing is planned after it. */
  function HeavyRun(cfg: Config, step: Step, w: World, last: bool): Option<Heavy> {
    if Passed(step, w) && last && cfg.heavyMode != Off then Some(w.heavy) else None
  }

  predicate Regressed(cfg: Config, at: Counters, blocking: nat) {
    cfg.convergence == Enforce && at.blocking.Some? && blocking >= at.blocking.value
  }

  /** A failed heavy validation is let through only with a correction queued. */
  predicate HeavyAllows(cfg: Config, at: Counters, heavy: Option<Heavy>) {
    match heavy
    case None => true
    case Some(HeavyOk) => true
    case Some(HeavyFailed(b)) => !Regressed(cfg, at, b) && at.heavyCount < cfg.maxHeavy
    case Some(HeavyThrows) => false
  }

  predicate PolicyAllows(cfg: Config, step: Step, w: World) {
    IsCorrection(step) && cfg.policy == Enforce ==> w.policyOk
  }

  predicate Completes(cfg: Config, at: Counters, step: Step, w: World, last: bool) {
    && Passed(step, w)
    && HeavyAllows(cfg, at, HeavyRun(cfg, step, w, last))
    && PolicyAllows(cfg, step, w)
  }

  predicate Commits(step: Step, w: World) {
    w.ran && step.mutates && (w.transaction == Committed(true) || (w.transaction.TransactionThrows? && w.transaction.afterCommit))
  }

  predicate Violates(cfg: Config, step: Step, w: World) {
    && w.ran && step.mutates && w.transaction.TransactionThrows? && w.transaction.violation && !w.transaction.afterCommit
    && cfg.guardsInvariants && step.tool == AiMutation
  }

  function Observed(cfg: Config, at: Counters, index: nat, step: Step, w: World, last: bool): (r: Record)
    ensures r.index == index && r.step == step && r.at == at && r.world == w && r.last == last
  {
    Record(index, step, at, w, last, Completes(cfg, at, step, w, last), Commits(step, w), Violates(cfg, step, w))
  }

  predicate RepeatedSignature(at: Counters, w: World) {
    at.runtimeCount > 0 && at.signature == Some(w.signature)
  }

  predicate Unconverged(cfg: Config, at: Counters, step: Step, w: World) {
    RuntimeVerify(step) && !w.runtimeOk && RepeatedSignature(at, w) && cfg.convergence == Enforce
  }

  /** The message of a step that did not pass. */
  predicate EarlyMentions(cfg: Config, at: Counters, step: Step, w: World) {
    if RuntimeVerify(step) && !w.runtimeOk then w.runtimeMentions && !Unconverged(cfg, at, step, w)
    else if w.ran then w.transactionMentions
    else w.errorMentions
  }

  /** Whether the message of a failed step mentions a tool input failure: the last message written counts. */
  predicate MessageMentions(cfg: Config, r: Record) {
    var heavy := HeavyRun(cfg, r.step, r.world, r.last);
    if !Passed(r.step, r.world) then EarlyMentions(cfg, r.at, r.step, r.world)
    else if HeavyAllows(cfg, r.at, heavy) then r.world.policyMentions
    else heavy == Some(HeavyThrows) && r.world.heavyMentions
  }

  datatype Decision = QueueHeavy | QueueRuntime | StopFailed | Advance

  predicate QueuesHeavy(cfg: Config, r: Record) {
    var heavy := HeavyRun(cfg, r.step, r.world, r.last);
    heavy.Some? && heavy.value.HeavyFailed? && HeavyAllows(cfg, r.at, heavy)
  }

  /** A queued heavy correction wins even over a policy failure; a runtime correction is queued for a failed
    * runtime check or a tool input failure, whatever else went wrong. */
  function Decide(cfg: Config, r: Record): Decision {
    if QueuesHeavy(cfg, r) then QueueHeavy
    else if r.completed then Advance
    else if (RuntimeVerify(r.step) || MessageMentions(cfg, r)) && r.at.runtimeCount < cfg.maxRuntime then QueueRuntime
    else StopFailed
  }

  function NextSignature(at: Counters, step: Step, w: World): Option<nat> {
    if !RuntimeVerify(step) then at.signature
    else if w.runtimeOk then None else Some(w.signature)
  }

  function NextBlocking(at: Counters, heavy: Option<Heavy>): Option<nat> {
    match heavy
    case Some(HeavyOk) => None
    case Some(HeavyFailed(b)) => Some(b)
    case _ => at.blocking
  }

  function NextCounters(cfg: Config, r: Record): Counters {
    Counters(
      r.at.runtimeCount + (if Decide(cfg, r).QueueRuntime? then 1 else 0),
      r.at.heavyCount + (if Decide(cfg, r).QueueHeavy? then 1 else 0),
      NextSignature(r.at, r.step, r.world),
      NextBlocking(r.at, HeavyRun(cfg, r.step, r.world, r.last)))
  }

  /** The run is rolled back to its last valid commit when it stops for one of these reasons. */
  predicate RollsBack(cfg: Config, r: Record) {
    || Unconverged(cfg, r.at, r.step, r.world)
    || !HeavyAllows(cfg, r.at, HeavyRun(cfg, r.step, r.world, r.last))
    || (Passed(r.step, r.world) && !PolicyAllows(cfg, r.step, r.world))
    || (RuntimeVerify(r.step) && r.at.runtimeCount >= cfg.maxRuntime)
  }

  // ---- the plan ---------------------------------------------------------------------------------

  function CountPrefix(plan: seq<Step>, prefix: IdPrefix): nat {
    if plan == [] then 0
    else CountPrefix(plan[..|plan| - 1], prefix) + (if plan[|plan| - 1].prefix == prefix then 1 else 0)
  }

  function Insert(plan: seq<Step>, index: nat, steps: seq<Step>): (r: seq<Step>)
    requires index <= |plan|
    ensures |r| == |plan| + |steps| && r[..index] == plan[..index] && r[index..index + |steps|] == steps
  {
    plan[..index] + steps + plan[index..]
  }

  function RuntimeCorrectionStep(planned: Planned): Step
    requires planned.Planned?
  {
    Step(RuntimeCorrectionId, RuntimeCorrectionId, Modify, planned.tool, planned.mutates)
  }

  function HeavyCorrectionStep(planned: Planned): Step
    requires planned.Planned?
  {
    Step(ValidationCorrectionId, ValidationCorrectionId, Modify, planned.tool, planned.mutates)
  }

  /** The failed step again, as a runtime check, under a normalized id. */
  function RetryStep(failed: Step): Step {
    Step(failed.normalizedPrefix, failed.normalizedPrefix, Verify, RunPreviewContainer, failed.mutates)
  }

  // ---- delivery -----------------------------------------------------------------------------------

  predicate DeliversMutation(r: Record) {
    r.completed && r.commit && r.step.kind == Modify
  }

  predicate ProvesNoChange(r: Record) {
    r.completed && r.world.noChangeProof
  }

  predicate Delivered(cfg: Config, steps: seq<Record>) {
    || !cfg.goalNeedsMutation
    || (exists k :: 0 <= k < |steps| && DeliversMutation(steps[k]))
    || (exists k :: 0 <= k < |steps| && ProvesNoChange(steps[k]))
  }

  // ---- one iteration, as the source runs it ---------------------------------------------------------

  method RunTransaction(cfg: Config, step: Step, w: World) returns (completed: bool, mentions: bool, commit: bool,
                        violation: bool)
    ensures completed == Ran(step, w) && commit == Commits(step, w) && violation == Violates(cfg, step, w)
    ensures !completed ==> mentions == if w.ran then w.transactionMentions else w.errorMentions
  {
    completed, mentions := w.ran, w.errorMentions;
    commit, violation := false, false;
    if completed && step.mutates {
      match w.transaction {
        case NoChanges =>
          if IsCorrection(step) { completed, mentions := false, w.transactionMentions; }
        case Committed(hash) =>
          commit := hash;
          if IsCorrection(step) && !hash { completed, mentions := false, w.transactionMentions; }
        case TransactionThrows(afterCommit, breaksInvariant) =>
          commit := afterCommit;
          violation := breaksInvariant && !afterCommit && cfg.guardsInvariants && step.tool == AiMutation;
          completed, mentions := false, w.transactionMentions;
      }
    }
  }

  method VerifyRuntime(cfg: Config, at: Counters, w: World, ran: bool, said: bool)
    returns (completed: bool, mentions: bool, rollback: bool, signature: Option<nat>)
    ensures completed == (ran && w.runtimeOk)
    ensures rollback == (!w.runtimeOk && RepeatedSignature(at, w) && cfg.convergence == Enforce)
    ensures mentions == if w.runtimeOk then said else w.runtimeMentions && !rollback
    ensures signature == if w.runtimeOk then None else Some(w.signature)
  {
    completed, mentions, rollback := ran, said, false;
    if !w.runtimeOk {
      completed, mentions := false, w.runtimeMentions;
      var repeated := at.runtimeCount > 0 && at.signature.Some? && w.signature == at.signature.value;
      if repeated && cfg.convergence == Enforce {
        rollback, mentions := true, false;
      }
      signature := Some(w.signature);
    } else {
      signature := None;
    }
  }

  method ValidateHeavily(cfg: Config, at: Counters, w: World)
    returns (completed: bool, mentions: bool, queueHeavy: bool, blocking: Option<nat>)
    ensures completed == HeavyAllows(cfg, at, Some(w.heavy))
    ensures queueHeavy == (w.heavy.HeavyFailed? && completed)
    ensures !completed ==> mentions == (w.heavy == HeavyThrows && w.heavyMentions)
    ensures blocking == NextBlocking(at, Some(w.heavy))
  {
    completed, mentions, queueHeavy, blocking := true, false, false, at.blocking;
    match w.heavy {
      case HeavyOk => blocking := None;
      case HeavyFailed(count) =>
        var regression := at.blocking.Some? && count >= at.blocking.value;
        if regression && cfg.convergence == Enforce { completed := false; }
        blocking := Some(count);
        if completed {
          if at.heavyCount < cfg.maxHeavy {
            queueHeavy := true;
          } else {
            completed := false;
          }
        }
      case HeavyThrows => completed, mentions := false, w.heavyMentions;
    }
  }

  method RunEarlyChecks(cfg: Config, at: Counters, step: Step, w: World)
    returns (completed: bool, mentions: bool, commit: bool, violation: bool, rollback: bool, signature: Option<nat>)
    ensures completed == Passed(step, w)
    ensures commit == Commits(step, w) && violation == Violates(cfg, step, w)
    ensures !completed ==> mentions == EarlyMentions(cfg, at, step, w)
    ensures rollback == Unconverged(cfg, at, step, w) && signature == NextSignature(at, step, w)
  {
    hide Ran, Commits, Violates;
    rollback, signature := false, at.signature;
    completed, mentions, commit, violation := RunTransaction(cfg, step, w);
    if RuntimeVerify(step) {
      completed, mentions, rollback, signature := VerifyRuntime(cfg, at, w, completed, mentions);
    }
  }

  /** The checks a step goes through, each able to overrule the status and the message of the one before. */
  method RunChecks(cfg: Config, at: Counters, index: nat, step: Step, w: World, last: bool)
    returns (r: Record, mentions: bool, queueHeavy: bool, rollback: bool, signature: Option<nat>, blocking: Option<nat>)
    ensures r == Observed(cfg, at, index, step, w, last)
    ensures queueHeavy == QueuesHeavy(cfg, r)
    ensures !r.completed ==> mentions == MessageMentions(cfg, r)
    ensures !queueHeavy && !r.completed ==>
      (rollback || (RuntimeVerify(step) && at.runtimeCount >= cfg.maxRuntime)) == RollsBack(cfg, r)
    ensures signature == NextSignature(at, step, w)
    ensures blocking == NextBlocking(at, HeavyRun(cfg, step, w, last))
  {
    hide Passed, HeavyAllows, Commits, Violates, EarlyMentions, NextSignature, RuntimeVerify;
    queueHeavy, blocking := false, at.blocking;
    var completed, commit, violation;
    completed, mentions, commit, violation, rollback, signature := RunEarlyChecks(cfg, at, step, w);
    PassedConverges(cfg, at, step, w);
    if completed && last && cfg.heavyMode != Off {
      completed, mentions, queueHeavy, blocking := ValidateHeavily(cfg, at, w);
      rollback := !completed;
    }
    if IsCorrection(step) && cfg.policy != Off {
      if !w.policyOk && completed && cfg.policy == Enforce {
        completed, rollback, mentions := false, true, w.policyMentions;
      }
    }
    NoHeavyAllows(cfg, at);
    r := Record(index, step, at, w, last, completed, commit, violation);
  }

  lemma PassedConverges(cfg: Config, at: Counters, step: Step, w: World)
    ensures Passed(step, w) ==> !Unconverged(cfg, at, step, w)
  {
  }

  lemma NoHeavyAllows(cfg: Config, at: Counters)
    ensures HeavyAllows(cfg, at, None)
  {
  }
}
