/** Which runs the auto-correction driver validates, retries and corrects, and how often, said on the executions themselves. */
module DriverRules {
  import opened Wrappers
  import opened ValidationModes
  import opened KernelLoop
  import opened KernelExecution
  import opened KernelDriver
  import opened DriverSoundness

  // ---- one execution ------------------------------------------------------------------------------------

  predicate HasSteps(round: Round) {
    round.plan.Steps? && |round.plan.steps| > 0
  }

  /** The last recorded step broke an invariant. */
  predicate Broke(c: Call) {
    |c.steps| > 0 && c.steps[|c.steps| - 1].violation
  }

  /** A correction that broke an invariant goes on as if it had completed, unless it followed a validation that passed: three times
    * at one number of attempts. */
  predicate Forced(p: Progress, c: Call) {
    c.run.status != Complete && Broke(c) && p.validated && !p.debt && p.failures < 3
  }

  /** An execution that completed, or goes on as if, is validated and may be corrected; a first one that broke an invariant may be
    * retried. Attempts are two, retries three. */
  predicate Corrected(p: Progress, c: Call, v: Validation) {
    && (c.run.status == Complete || Forced(p, c))
    && (if v.ok then p.validated && v.debt else v.correctable)
    && p.used + (if p.validated && c.run.status == Complete then 1 else 0) < 2
  }

  predicate Retried(p: Progress, c: Call) {
    c.run.status != Complete && Broke(c) && !p.validated && p.failures < 3
  }

  /** The step after the one that failed, by its recorded index; index zero reads as missing. */
  function AfterFailed(c: Call): nat
    requires |c.steps| > 0
  {
    1 + if c.steps[|c.steps| - 1].index == 0 then c.run.index else c.steps[|c.steps| - 1].index
  }

  lemma NextExactlyWhen(p: Progress, c: Call, round: Round)
    ensures var next := Next(p, c, round);
            && (next.Some? <==> HasSteps(round) && (Corrected(p, c, round.validation) || Retried(p, c)))
            && (next.Some? && Corrected(p, c, round.validation) ==>
                  && next.value.plan == c.run.plan + round.plan.steps
                  && next.value.start == (if c.run.status == Complete then c.run.index
                                          else if AfterFailed(c) < |c.run.plan| then AfterFailed(c) else |c.run.plan|))
            && (next.Some? && Retried(p, c) ==>
                  var at := c.steps[|c.steps| - 1].index + 1;
                  && next.value.start == at
                  && next.value.plan == (if at <= |c.run.plan| then c.run.plan[..at] + round.plan.steps + c.run.plan[at..]
                                         else c.run.plan + round.plan.steps))
  {
    var plan := c.run.plan;
    assert HasSteps(round) ==> plan[..|plan|] + round.plan.steps + plan[|plan|..] == plan + round.plan.steps;
  }

  lemma ProgressMoves(p: Progress, c: Call, round: Round)
    requires Next(p, c, round).Some?
    ensures var q := Next(p, c, round).value.progress;
            if c.run.status == Complete then
              && q.validated && q.debt == round.validation.ok
              && q.used == p.used + (if p.validated then 1 else 0)
              && q.failures == (if p.validated then 0 else p.failures)
            else
              && q.validated == p.validated && (p.validated ==> q.debt == round.validation.ok) && (!p.validated ==> q.debt == p.debt)
              && q.used == p.used && q.failures == p.failures + 1
  {
  }

  // ---- the executions of one run ---------------------------------------------------------------------------

  /** The executions that completed. */
  function Completed(trace: seq<Call>): set<nat> {
    set i | 0 <= i < |trace| && trace[i].run.status == Complete
  }

  /** How many did not since the latest correction that completed; the one that completed first was no correction. */
  function Failures(trace: seq<Call>): nat {
    if trace == [] then 0
    else
      var before := trace[..|trace| - 1];
      if trace[|trace| - 1].run.status != Complete then Failures(before) + 1
      else if Completed(before) != {} then 0 else Failures(before)
  }

  /** What the driver knows after some executions: from the first completed one on there was a validation, each further one that
    * completed used up an attempt, and the latest validation may have passed. */
  function After(done: seq<Call>, rounds: nat -> Round, used: nat): Progress {
    if Completed(done) == {} then Progress(false, false, used, Failures(done))
    else Progress(true, rounds(if done == [] then 0 else |done| - 1).validation.ok, used + |Completed(done)| - 1, Failures(done))
  }

  lemma CompletedGrows(done: seq<Call>, c: Call)
    ensures Completed(done + [c]) == Completed(done) + if c.run.status == Complete then {|done|} else {}
    ensures |Completed(done + [c])| == |Completed(done)| + if c.run.status == Complete then 1 else 0
  {
    assert Completed(done + [c]) == Completed(done) + if c.run.status == Complete then {|done|} else {};
    assert |done| !in Completed(done);
  }

  lemma AfterMoves(done: seq<Call>, c: Call, rounds: nat -> Round, used: nat)
    requires Next(After(done, rounds, used), c, rounds(|done|)).Some?
    ensures Next(After(done, rounds, used), c, rounds(|done|)).value.progress == After(done + [c], rounds, used)
  {
    ProgressMoves(After(done, rounds, used), c, rounds(|done|));
    hide Next;
    CompletedGrows(done, c);
    assert (done + [c])[..|done|] == done;
    hide Completed;
  }

  lemma {:induction false} ProgressIs(cfg: Config, worlds: nat -> nat -> World, rounds: nat -> Round, used: nat, trace: seq<Call>,
                                      threw: bool, i: nat)
    requires Traced(cfg, worlds, rounds, used, trace, threw) && i < |trace|
    ensures ProgressOf(trace[..i + 1], rounds, used) == After(trace[..i], rounds, used)
  {
    hide Executed, Next, After;
    if i == 0 {
      AfterNothing(trace[..0], rounds, used);
      assert |trace[..1]| == 1;
    } else {
      ProgressIs(cfg, worlds, rounds, used, trace, threw, i - 1);
      assert FollowsAt(trace, rounds, used, i);
      hide Traced;
      assert trace[..i + 1][..i] == trace[..i] && trace[..i][i - 1] == trace[i - 1];
      assert trace[..i] == trace[..i - 1] + [trace[i - 1]];
      AfterMoves(trace[..i - 1], trace[i - 1], rounds, used);
    }
  }

  lemma AfterNothing(none: seq<Call>, rounds: nat -> Round, used: nat)
    requires none == []
    ensures After(none, rounds, used) == Progress(false, false, used, 0)
  {
    assert Completed(none) == {};
  }

  lemma FollowsNext(cfg: Config, worlds: nat -> nat -> World, rounds: nat -> Round, used: nat, trace: seq<Call>, threw: bool, i: nat)
    requires Traced(cfg, worlds, rounds, used, trace, threw) && 0 < i < |trace|
    ensures var next := Next(After(trace[..i - 1], rounds, used), trace[i - 1], rounds(i - 1));
            && next.Some? && trace[i].prior == trace[i - 1].steps
            && trace[i].plan == next.value.plan && trace[i].start == next.value.start
  {
    hide Executed, ProgressOf, After, Next;
    ProgressIs(cfg, worlds, rounds, used, trace, threw, i - 1);
    assert FollowsAt(trace, rounds, used, i);
    hide Traced;
    assert trace[..i - 1 + 1] == trace[..i];
  }

  /** Execution i of the driver exists because of the one before it: the planner gave steps, and they correct or retry it. */
  lemma FollowsExactlyWhen(cfg: Config, worlds: nat -> nat -> World, rounds: nat -> Round, used: nat, trace: seq<Call>, threw: bool, i: nat)
    requires Traced(cfg, worlds, rounds, used, trace, threw) && 0 < i < |trace|
    ensures var c, p, round := trace[i - 1], After(trace[..i - 1], rounds, used), rounds(i - 1);
            && HasSteps(round) && trace[i].prior == c.steps
            && (|| (&& Corrected(p, c, round.validation)
                    && trace[i].plan == c.run.plan + round.plan.steps
                    && trace[i].start == (if c.run.status == Complete then c.run.index
                                          else if AfterFailed(c) < |c.run.plan| then AfterFailed(c) else |c.run.plan|))
                || (&& Retried(p, c)
                    && var at := c.steps[|c.steps| - 1].index + 1;
                       && trace[i].start == at
                       && trace[i].plan == (if at <= |c.run.plan| then c.run.plan[..at] + round.plan.steps + c.run.plan[at..]
                                            else c.run.plan + round.plan.steps)))
  {
    hide Traced, After, Next, Corrected, Retried, HasSteps;
    FollowsNext(cfg, worlds, rounds, used, trace, threw, i);
    NextExactlyWhen(After(trace[..i - 1], rounds, used), trace[i - 1], rounds(i - 1));
  }

  /** And the last one is followed by none because there is nothing to make of it, unless the driver threw. A run without a mutation
    * anywhere in its plan, or without the builder profile, is executed once and never validated. */
  lemma StopsExactlyWhen(cfg: Config, builder: bool, worlds: nat -> nat -> World, rounds: nat -> Round, used: nat, trace: seq<Call>)
    requires Traced(cfg, worlds, rounds, used, trace, false) && Stopped(builder, rounds, used, trace, false)
    ensures trace != []
    ensures var n := |trace| - 1;
            if builder && exists k :: 0 <= k < |trace[0].run.plan| && trace[0].run.plan[k].tool == AiMutation
            then var p := After(trace[..n], rounds, used);
                 !(HasSteps(rounds(n)) && (Corrected(p, trace[n], rounds(n).validation) || Retried(p, trace[n])))
            else |trace| == 1
  {
    assert trace != [];
    var n := |trace| - 1;
    ProgressIs(cfg, worlds, rounds, used, trace, false, n);
    assert trace[..n + 1] == trace;
    hide Traced, ProgressOf, After;
    NextExactlyWhen(After(trace[..n], rounds, used), trace[n], rounds(n));
    hide Next, Corrected, Retried, HasSteps;
  }

  /** A builder run with a mutation anywhere in its plan, whose first execution completes and fails a validation in a way that can be
    * corrected, is executed again with the planner's steps at the end, while an attempt is left. */
  lemma FirstFailureIsCorrected(cfg: Config, worlds: nat -> nat -> World, rounds: nat -> Round, used: nat, trace: seq<Call>, k: nat)
    requires Traced(cfg, worlds, rounds, used, trace, false) && Stopped(true, rounds, used, trace, false)
    requires k < |trace[0].run.plan| && trace[0].run.plan[k].tool == AiMutation && trace[0].run.status == Complete
    requires !rounds(0).validation.ok && rounds(0).validation.correctable
    requires rounds(0).plan.Steps? && |rounds(0).plan.steps| > 0 && used < 2
    ensures |trace| >= 2 && trace[1].prior == trace[0].steps
    ensures trace[1].plan == trace[0].run.plan + rounds(0).plan.steps && trace[1].start == trace[0].run.index
  {
    hide Traced, Stopped;
    StopsExactlyWhen(cfg, true, worlds, rounds, used, trace);
    AfterNothing(trace[..0], rounds, used);
    hide After;
    FollowsExactlyWhen(cfg, worlds, rounds, used, trace, false, 1);
    assert trace[..1 - 1] == trace[..0];
  }

  /** One whose first execution breaks an invariant is executed again with the planner's steps right after the step that failed. */
  lemma FirstBreakIsRetried(cfg: Config, worlds: nat -> nat -> World, rounds: nat -> Round, used: nat, trace: seq<Call>, k: nat)
    requires Traced(cfg, worlds, rounds, used, trace, false) && Stopped(true, rounds, used, trace, false)
    requires k < |trace[0].run.plan| && trace[0].run.plan[k].tool == AiMutation && trace[0].run.status != Complete
    requires |trace[0].steps| > 0 && trace[0].steps[|trace[0].steps| - 1].violation
    requires rounds(0).plan.Steps? && |rounds(0).plan.steps| > 0
    ensures |trace| >= 2 && trace[1].prior == trace[0].steps
    ensures var run, at := trace[0].run, trace[0].steps[|trace[0].steps| - 1].index + 1;
            && trace[1].start == at
            && trace[1].plan == (if at <= |run.plan| then run.plan[..at] + rounds(0).plan.steps + run.plan[at..]
                                 else run.plan + rounds(0).plan.steps)
  {
    hide Traced, Stopped;
    StopsExactlyWhen(cfg, true, worlds, rounds, used, trace);
    AfterNothing(trace[..0], rounds, used);
    hide After;
    FollowsExactlyWhen(cfg, worlds, rounds, used, trace, false, 1);
    assert trace[..1 - 1] == trace[..0];
  }

  /** A run without a mutation, or of another profile, is executed once, whatever becomes of it. */
  lemma OtherRunsAreExecutedOnce(cfg: Config, builder: bool, worlds: nat -> nat -> World, rounds: nat -> Round, used: nat, trace: seq<Call>)
    requires Traced(cfg, worlds, rounds, used, trace, false) && Stopped(builder, rounds, used, trace, false)
    requires !builder || forall k :: 0 <= k < |trace[0].run.plan| ==> trace[0].run.plan[k].tool != AiMutation
    ensures |trace| == 1
  {
    StopsExactlyWhen(cfg, builder, worlds, rounds, used, trace);
  }

  /** The limit on executions, in numbers: nine without an attempt used, five after one, four after two. */
  lemma NineFiveFour(attempts: int)
    ensures MaxCalls(AttemptsUsed(attempts)) == if attempts <= 0 then 9 else if attempts == 1 then 5 else 4
  {
  }

  /** What is returned: the last execution's run, or if that is forced, the run as complete behind its failed step. */
  lemma ReturnedExactlyWhen(detail: Detail, p: Progress, c: Call)
    requires Shows(detail, p, c)
    ensures detail.steps == c.steps && detail.run.plan == c.run.plan && detail.run.rolledBack == c.run.rolledBack
    ensures detail.run.status == if Forced(p, c) then Complete else c.run.status
    ensures detail.run.index == if !Forced(p, c) then c.run.index
                                else if AfterFailed(c) < |c.run.plan| then AfterFailed(c) else |c.run.plan|
    ensures (if detail.correctionAttempts < 0 then 0 else detail.correctionAttempts) ==
              p.used + if p.validated && c.run.status == Complete then 1 else 0
  {
  }
}
