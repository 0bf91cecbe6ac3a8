/** What a `complete` run of the auto-correction driver means, and when it does not mean it. */
module DriverSoundness {
  import opened Wrappers
  import opened ValidationModes
  import opened KernelLoop
  import opened KernelExecution
  import opened KernelRuns
  import opened KernelDriver

  /** All planned steps were recorded in order, each failure was answered by a correction, the last step is in order, and the
    * goal was delivered. */
  ghost predicate SoundRecords(cfg: Config, oracle: nat -> World, start: nat, steps: seq<Record>, records: seq<Record>, plan: seq<Step>) {
    && records != [] && start + |records| == |plan|
    && (forall k :: 0 <= k < |records| ==> records[k].step == plan[start + k])
    && (forall k :: 0 <= k < |records| && !records[k].completed ==> k + 1 < |records| && IsCorrection(records[k + 1].step))
    && records[|records| - 1].completed && (cfg.heavyMode != Off ==> oracle(|records| - 1).heavy == HeavyOk)
    && Delivered(cfg, steps)
  }

  /** The execution did what a complete one promises. */
  ghost predicate Sound(cfg: Config, oracle: nat -> World, c: Call)
    requires |c.prior| <= |c.steps|
  {
    SoundRecords(cfg, oracle, c.start, c.steps, c.steps[|c.prior|..], c.run.plan)
  }

  lemma CompleteRecordsAreSound(cfg: Config, oracle: nat -> World, start: nat, prior: seq<Record>, first: Counters,
                                records: seq<Record>, run: Run)
    requires Ledger(cfg, oracle, start, first, records, run.plan) && start < |run.plan|
    requires Ended(cfg, oracle, start, prior, records, run) && run.status == Complete
    ensures run.index == |run.plan| && SoundRecords(cfg, oracle, start, prior + records, records, run.plan)
  {
    hide Ledger, Ended, Delivered, Decide, Passed, PolicyAllows, RetryStep, IsCorrection;
    CompleteIsSound(cfg, oracle, start, prior, first, records, run);
  }

  lemma CompleteStartsInside(cfg: Config, oracle: nat -> World, c: Call)
    requires Executed(cfg, oracle, c) && c.run.status == Complete
    ensures c.start < |c.plan| && c.start < |c.run.plan| && c.steps[|c.prior|..] != []
  {
    hide Ledger, Finishes, Observed, InitialCounters, CountersAfter, Decide, RollsBack, FollowedUp, PlanAfter;
    assert UnfoldsAt(cfg, oracle, c.start, c.plan, c.steps[|c.prior|..], 0);
    assert c.steps[|c.prior|..][..0] == [];
    assert PlanAfter(cfg, c.start, c.plan, []) == c.plan by { NoRecords(cfg, c.start, c.plan); }
  }

  lemma NoRecords(cfg: Config, start: nat, plan: seq<Step>)
    ensures PlanAfter(cfg, start, plan, []) == plan
  {
  }

  lemma CompleteExecutionIsSound(cfg: Config, oracle: nat -> World, c: Call)
    requires Executed(cfg, oracle, c) && c.run.status == Complete
    ensures c.start < |c.plan| && c.run.index == |c.run.plan| && Sound(cfg, oracle, c)
  {
    hide Ledger, Ended, Unfolds, PlanAfter, SoundRecords, InitialCounters;
    CompleteStartsInside(cfg, oracle, c);
    var records := c.steps[|c.prior|..];
    assert c.steps == c.prior + records;
    CompleteRecordsAreSound(cfg, oracle, c.start, c.prior, InitialCounters(c.plan), records, c.run);
  }

  /** The last record of an execution that started inside its plan. */
  lemma LastRecord(cfg: Config, oracle: nat -> World, c: Call)
    requires Executed(cfg, oracle, c) && c.start < |c.plan|
    ensures |c.prior| < |c.steps|
    ensures var r := c.steps[|c.steps| - 1];
            r.violation ==> !r.completed && cfg.guardsInvariants && r.step.tool == AiMutation
  {
    hide Ended, InitialCounters, CountersAfter, PlanAfter, Ledger;
    var records := c.steps[|c.prior|..];
    StopsAtTheEnd(cfg, oracle, c.start, c.plan, c.prior, records, c.run);
    assert UnfoldsAt(cfg, oracle, c.start, c.plan, records, |records| - 1);
    hide Unfolds;
  }

  lemma ValidatedStartsInside(p: Progress, c: Call, round: Round)
    requires Next(p, c, round).Some? && Next(p, c, round).value.progress.validated
    requires c.run.status == Complete ==> c.run.index == |c.run.plan|
    requires p.validated ==> Leaves(p, c).status == Complete
    ensures Next(p, c, round).value.start < |Next(p, c, round).value.plan|
  {
    hide BreaksInvariant, FailedAt, Insert;
  }

  lemma NothingAfterAFailedCorrection(p: Progress, c: Call, round: Round)
    requires Next(p, c, round).Some? && p.validated
    ensures Leaves(p, c).status == Complete
  {
    hide BreaksInvariant, FailedAt, Insert;
  }

  /** What follows an execution, in terms of the progress before it. */
  lemma LastFollows(trace: seq<Call>, rounds: nat -> Round, used: nat)
    requires |trace| > 1 && FollowsAt(trace, rounds, used, |trace| - 1)
    ensures var i := |trace| - 1;
            var next := Next(ProgressOf(trace[..i], rounds, used), trace[i - 1], rounds(i - 1));
            && next.Some? && ProgressOf(trace, rounds, used) == next.value.progress
            && trace[i].plan == next.value.plan && trace[i].start == next.value.start
  {
    hide Next;
    assert trace[..|trace| - 1][|trace| - 2] == trace[|trace| - 2];
  }

  lemma FirstIsNoCorrection(trace: seq<Call>, rounds: nat -> Round, used: nat)
    requires ProgressOf(trace, rounds, used).validated
    ensures |trace| > 1
  {
    hide Next;
  }

  /** A correction starts inside its plan: the run it follows stands at most at its end. */
  lemma CorrectionStartsInside(cfg: Config, worlds: nat -> nat -> World, rounds: nat -> Round, used: nat, trace: seq<Call>)
    requires Traced(cfg, worlds, rounds, used, trace, false) && ProgressOf(trace, rounds, used).validated
    ensures trace[|trace| - 1].start < |trace[|trace| - 1].plan|
  {
    hide Executed, Traced, Next, Leaves, Sound, ProgressOf, FollowsAt;
    FirstIsNoCorrection(trace, rounds, used);
    var i := |trace| - 1;
    var a, p := trace[i - 1], ProgressOf(trace[..i], rounds, used);
    TracedAt(cfg, worlds, rounds, used, trace, i);
    TracedAt(cfg, worlds, rounds, used, trace, i - 1);
    LastFollows(trace, rounds, used);
    if a.run.status == Complete { CompleteExecutionIsSound(cfg, worlds(i - 1), a); }
    if p.validated { NothingAfterAFailedCorrection(p, a, rounds(i - 1)); }
    ValidatedStartsInside(p, a, rounds(i - 1));
  }

  lemma TracedAt(cfg: Config, worlds: nat -> nat -> World, rounds: nat -> Round, used: nat, trace: seq<Call>, i: nat)
    requires Traced(cfg, worlds, rounds, used, trace, false) && i < |trace|
    ensures Executed(cfg, worlds(i), trace[i])
    ensures i > 0 ==> FollowsAt(trace, rounds, used, i)
  {
    hide Executed, FollowsAt;
  }

  /** An execution that is forced is not sound: its last step broke an invariant. */
  lemma ForcedEnds(cfg: Config, oracle: nat -> World, p: Progress, c: Call)
    requires Executed(cfg, oracle, c) && c.start < |c.plan| && Forces(p, c)
    ensures |c.prior| < |c.steps| && !Sound(cfg, oracle, c) && !c.steps[|c.steps| - 1].completed
    ensures cfg.guardsInvariants && c.steps[|c.steps| - 1].step.tool == AiMutation
  {
    LastRecord(cfg, oracle, c);
    hide Executed, Delivered;
    assert c.steps[|c.prior|..][|c.steps| - |c.prior| - 1] == c.steps[|c.steps| - 1];
  }

  lemma UnforcedEnds(cfg: Config, oracle: nat -> World, c: Call)
    requires Executed(cfg, oracle, c) && c.run.status == Complete
    ensures |c.prior| < |c.steps| && Sound(cfg, oracle, c) && c.steps[|c.steps| - 1].completed
  {
    CompleteExecutionIsSound(cfg, oracle, c);
    LastRecord(cfg, oracle, c);
    hide Executed, Delivered;
    assert c.steps[|c.prior|..][|c.steps| - |c.prior| - 1] == c.steps[|c.steps| - 1];
  }

  /** One execution that the driver leaves complete: sound, forced, last step. */
  ghost predicate SoundUnlessForced(cfg: Config, oracle: nat -> World, p: Progress, c: Call) {
    && |c.prior| < |c.steps|
    && (Sound(cfg, oracle, c) <==> !Forces(p, c))
    && (Forces(p, c) <==> !c.steps[|c.steps| - 1].completed)
    && (Forces(p, c) ==> cfg.guardsInvariants && c.steps[|c.steps| - 1].step.tool == AiMutation)
  }

  lemma UnforcedIsLeft(p: Progress, c: Call)
    requires !Forces(p, c)
    ensures Leaves(p, c) == c.run
  {
    hide Forces;
  }

  lemma LeftComplete(cfg: Config, oracle: nat -> World, p: Progress, c: Call)
    requires Executed(cfg, oracle, c) && Leaves(p, c).status == Complete && (Forces(p, c) ==> c.start < |c.plan|)
    ensures SoundUnlessForced(cfg, oracle, p, c)
  {
    hide Executed, Sound, Forces, Leaves;
    if !Forces(p, c) { UnforcedIsLeft(p, c); }
    if Forces(p, c) {
      ForcedEnds(cfg, oracle, p, c);
    } else {
      UnforcedEnds(cfg, oracle, c);
    }
  }

  /** Only a correction is forced, and that starts inside its plan. */
  lemma ForcedStartsInside(cfg: Config, worlds: nat -> nat -> World, rounds: nat -> Round, used: nat, trace: seq<Call>)
    requires Traced(cfg, worlds, rounds, used, trace, false) && Forces(ProgressOf(trace, rounds, used), trace[|trace| - 1])
    ensures trace[|trace| - 1].start < |trace[|trace| - 1].plan|
  {
    hide Traced, ProgressOf;
    CorrectionStartsInside(cfg, worlds, rounds, used, trace);
  }

  /** A run the driver leaves `complete` was soundly completed by the execution that ended it, unless and only unless that
    * execution failed on an invariant and was forced; the latter takes a configuration that guards invariants. */
  lemma CompleteIsSoundUnlessForced(cfg: Config, worlds: nat -> nat -> World, rounds: nat -> Round, used: nat, trace: seq<Call>,
                                    detail: Detail)
    requires Traced(cfg, worlds, rounds, used, trace, false)
    requires Shows(detail, ProgressOf(trace, rounds, used), trace[|trace| - 1]) && detail.run.status == Complete
    ensures var c := trace[|trace| - 1];
            detail.steps == c.steps && SoundUnlessForced(cfg, worlds(|trace| - 1), ProgressOf(trace, rounds, used), c)
  {
    assert trace != [];
    hide Traced, Executed, ProgressOf, Forces, Leaves, FollowsAt, UsedAfter, SoundUnlessForced;
    var i := |trace| - 1;
    var p := ProgressOf(trace, rounds, used);
    TracedAt(cfg, worlds, rounds, used, trace, i);
    if Forces(p, trace[i]) { ForcedStartsInside(cfg, worlds, rounds, used, trace); }
    LeftComplete(cfg, worlds(i), p, trace[i]);
  }

  // ---- the outside determines what the driver does ------------------------------------------------------------

  lemma SameExecution(cfg: Config, oracle: nat -> World, c: Call, d: Call)
    requires Executed(cfg, oracle, c) && Executed(cfg, oracle, d)
    requires c.plan == d.plan && c.start == d.start && c.prior == d.prior
    ensures c == d
  {
    hide Ended, Unfolds, PlanAfter, Ledger, InitialCounters;
    var records, others := c.steps[|c.prior|..], d.steps[|d.prior|..];
    ExecutionIsDetermined(cfg, oracle, c.start, c.plan, c.prior, records, c.run, others, d.run);
    assert c.steps == c.prior + records && d.steps == d.prior + others;
  }

  predicate SameStart(c: Call, d: Call) {
    c.plan == d.plan && c.start == d.start && c.prior == d.prior
  }

  lemma {:induction false} SameCalls(cfg: Config, worlds: nat -> nat -> World, rounds: nat -> Round, used: nat, trace: seq<Call>,
                                     other: seq<Call>, n: nat)
    requires Traced(cfg, worlds, rounds, used, trace, false) && Traced(cfg, worlds, rounds, used, other, false)
    requires SameStart(trace[0], other[0]) && n <= |trace| && n <= |other|
    ensures trace[..n] == other[..n]
  {
    hide Executed, Traced, Next, ProgressOf;
    if n > 0 {
      var i := n - 1;
      SameCalls(cfg, worlds, rounds, used, trace, other, i);
      TracedAt(cfg, worlds, rounds, used, trace, i);
      TracedAt(cfg, worlds, rounds, used, other, i);
      assert i > 0 ==> trace[i - 1] == trace[..i][i - 1] == other[..i][i - 1] == other[i - 1];
      SameExecution(cfg, worlds(i), trace[i], other[i]);
    }
  }

  lemma NoneCallsFurther(cfg: Config, builder: bool, worlds: nat -> nat -> World, rounds: nat -> Round, used: nat, trace: seq<Call>,
                         other: seq<Call>)
    requires Traced(cfg, worlds, rounds, used, trace, false) && Traced(cfg, worlds, rounds, used, other, false)
    requires Stopped(builder, rounds, used, trace, false) && Stopped(builder, rounds, used, other, false)
    requires SameStart(trace[0], other[0])
    ensures |other| <= |trace|
  {
    assert trace != [] && other != [];
    hide Executed, Traced, Next, ProgressOf, HasMutation;
    var n := if |trace| < |other| then |trace| else |other|;
    SameCalls(cfg, worlds, rounds, used, trace, other, n);
    assert trace[..n][0] == other[..n][0];
    if |trace| < |other| {
      assert trace[|trace| - 1] == trace[..n][|trace| - 1] == other[..n][|trace| - 1];
      assert other[..|trace|] == trace[..n] == trace;
      TracedAt(cfg, worlds, rounds, used, other, |trace|);
    }
  }

  /** The driver's promises leave no choice either: planner, validator and executions determine every execution it makes. */
  lemma DriverIsDetermined(cfg: Config, builder: bool, worlds: nat -> nat -> World, rounds: nat -> Round, used: nat, trace: seq<Call>,
                           other: seq<Call>)
    requires Traced(cfg, worlds, rounds, used, trace, false) && Traced(cfg, worlds, rounds, used, other, false)
    requires Stopped(builder, rounds, used, trace, false) && Stopped(builder, rounds, used, other, false)
    requires SameStart(trace[0], other[0])
    ensures trace == other
  {
    assert trace != [] && other != [] && SameStart(other[0], trace[0]);
    hide Traced, Stopped, SameStart;
    NoneCallsFurther(cfg, builder, worlds, rounds, used, trace, other);
    NoneCallsFurther(cfg, builder, worlds, rounds, used, other, trace);
    SameCalls(cfg, worlds, rounds, used, trace, other, |trace|);
    assert trace == trace[..|trace|] && other == other[..|trace|];
  }

  // ---- a forced run, for every configuration that guards invariants ----------------------------------------------

  const MUTATION := Step(PlainId, PlainId, Modify, AiMutation, true)
  const COMMITS := World(true, true, false, Committed(true), false, true, 0, false, HeavyOk, false, true, false, PlannerThrows, false)
  const BREAKS := COMMITS.(transaction := TransactionThrows(false, true))
  const NO_COUNTS := Counters(0, 0, None, None)

  const DONE := Record(0, MUTATION, NO_COUNTS, COMMITS, true, true, true, false)
  const BROKEN := Record(1, MUTATION, NO_COUNTS, BREAKS, true, false, false, true)

  function GoesWell(k: nat): World { COMMITS }

  function GoesWrong(k: nat): World { BREAKS }

  /** The first execution commits; the correction breaks an invariant. */
  function FirstWell(call: nat): nat -> World {
    if call == 0 then GoesWell else GoesWrong
  }

  /** The first validation fails in a way that can be corrected; the second one passes. */
  function OneCorrection(r: nat): Round {
    if r == 0 then Round(Validation(false, false, true), Steps([MUTATION])) else Round(Validation(true, false, false), NoPlan)
  }

  const GOOD_CALL := Call([MUTATION], 0, [], Run(Complete, 1, [MUTATION], false), [DONE])
  const BAD_CALL := Call([MUTATION, MUTATION], 1, [DONE], Run(Failed, 1, [MUTATION, MUTATION], false), [DONE, BROKEN])

  lemma NoCounts()
    ensures InitialCounters([MUTATION]) == NO_COUNTS && InitialCounters([MUTATION, MUTATION]) == NO_COUNTS
  {
    CountersOfOne(MUTATION);
    assert [MUTATION, MUTATION][..1] == [MUTATION];
  }

  lemma GoodCall(cfg: Config)
    requires cfg.guardsInvariants
    ensures Executed(cfg, GoesWell, GOOD_CALL)
  {
    NoCounts();
    assert Observed(cfg, NO_COUNTS, 0, MUTATION, COMMITS, true) == DONE;
    assert Decide(cfg, DONE).Advance? && Added(cfg, DONE) == [];
    assert DeliversMutation(DONE);
    hide Observed, InitialCounters, Decide, Added;
    UnfoldGrows(cfg, GoesWell, 0, [MUTATION], [], DONE);
    NothingAdded([MUTATION], 1);
    assert GOOD_CALL.steps[0..] == [DONE];
    assert Delivered(cfg, [DONE]) by { assert DeliversMutation([DONE][0]); }
    hide Delivered;
  }

  lemma BadCall(cfg: Config)
    requires cfg.guardsInvariants
    ensures Executed(cfg, GoesWrong, BAD_CALL)
  {
    NoCounts();
    assert Observed(cfg, NO_COUNTS, 1, MUTATION, BREAKS, true) == BROKEN;
    assert Decide(cfg, BROKEN).StopFailed? && !RollsBack(cfg, BROKEN) && Added(cfg, BROKEN) == [];
    hide Observed, InitialCounters, Decide, Added, RollsBack;
    UnfoldGrows(cfg, GoesWrong, 1, [MUTATION, MUTATION], [], BROKEN);
    NothingAdded([MUTATION, MUTATION], 2);
    assert BAD_CALL.steps[1..] == [BROKEN];
    hide Delivered;
  }

  lemma ForcedTrace(cfg: Config, used: nat)
    requires cfg.guardsInvariants && used < MAX_CORRECTION_ATTEMPTS
    ensures var trace := [GOOD_CALL, BAD_CALL];
            && Traced(cfg, FirstWell, OneCorrection, used, trace, false)
            && ProgressOf(trace, OneCorrection, used) == Progress(true, false, used, 0)
            && Stopped(true, OneCorrection, used, trace, false)
            && Forces(Progress(true, false, used, 0), BAD_CALL)
  {
    GoodCall(cfg);
    BadCall(cfg);
    hide Executed;
    var p := Progress(false, false, used, 0);
    OneCall(cfg, FirstWell, OneCorrection, used, GOOD_CALL, false);
    assert [MUTATION] + [MUTATION] == [MUTATION, MUTATION];
    assert Next(p, GOOD_CALL, OneCorrection(0)) == Some(Given([MUTATION, MUTATION], 1, Progress(true, false, used, 0)));
    TraceGrows(cfg, FirstWell, OneCorrection, used, [GOOD_CALL], BAD_CALL, false);
    assert [GOOD_CALL] + [BAD_CALL] == [GOOD_CALL, BAD_CALL];
    assert HasMutation(GOOD_CALL.run.plan) by { assert GOOD_CALL.run.plan[0].tool == AiMutation; }
    hide Traced, ProgressOf, HasMutation;
  }

  /** A call of the driver on a builder template that guards invariants, with an attempt left and whatever else is configured: the
    * first execution completes, its validation fails, the correction breaks an invariant, the second validation passes, and the
    * driver returns a complete run whose last step failed. */
  method ForcedRun(cfg: Config, attempts: int) returns (detail: Detail, calls: nat)
    requires cfg.guardsInvariants && attempts < MAX_CORRECTION_ATTEMPTS
    ensures calls == 2 && detail.run.status == Complete && detail.run.index == |detail.run.plan| == 2
    ensures |detail.steps| == 2 && !detail.steps[1].completed && detail.steps[1].violation
  {
    hide Executed, Traced, Stopped, ProgressOf, HasMutation, Next;
    ghost var used := AttemptsUsed(attempts);
    var threw;
    ghost var trace;
    detail, calls, threw, trace := ExecuteWithValidationAutoCorrection(cfg, true, [MUTATION], 0, [], attempts, FirstWell, OneCorrection);
    LockIsKept();
    ForcedTrace(cfg, used);
    assert !threw by { NoThrow(cfg, used, trace, threw); }
    DriverIsDetermined(cfg, true, FirstWell, OneCorrection, used, trace, [GOOD_CALL, BAD_CALL]);
  }

  lemma LockIsKept()
    ensures forall call :: !LosesLock(FirstWell(call))
  {
  }

  lemma NoThrow(cfg: Config, used: nat, trace: seq<Call>, threw: bool)
    requires Traced(cfg, FirstWell, OneCorrection, used, trace, threw) && forall call :: !LosesLock(FirstWell(call))
    ensures !threw
  {
    hide Executed, FirstWell;
  }

  // ---- when a complete run can be unsound ------------------------------------------------------------------------

  /** Everything the driver promises of a run that it returns complete, which was not soundly completed. */
  ghost predicate ReturnsUnsound(cfg: Config, builder: bool, used: nat, worlds: nat -> nat -> World, rounds: nat -> Round,
                                 trace: seq<Call>, detail: Detail)
  {
    && Traced(cfg, worlds, rounds, used, trace, false) && Stopped(builder, rounds, used, trace, false)
    && Shows(detail, ProgressOf(trace, rounds, used), trace[|trace| - 1]) && detail.run.status == Complete
    && var c := trace[|trace| - 1];
       |c.prior| <= |c.steps| && !Sound(cfg, worlds(|trace| - 1), c)
  }

  lemma ValidatedNext(p: Progress, c: Call, round: Round)
    requires Next(p, c, round).Some?
    ensures var q := Next(p, c, round).value.progress;
            p.used <= q.used && (q.validated ==> q.used < MAX_CORRECTION_ATTEMPTS)
  {
  }

  /** The attempts used never fall, and a validation is answered only while one is left. */
  lemma {:induction false} CorrectedWithAnAttemptLeft(cfg: Config, worlds: nat -> nat -> World, rounds: nat -> Round, used: nat,
                                                      trace: seq<Call>, n: nat)
    requires Traced(cfg, worlds, rounds, used, trace, false) && 1 <= n <= |trace|
    ensures var p := ProgressOf(trace[..n], rounds, used);
            used <= p.used && (p.validated ==> p.used < MAX_CORRECTION_ATTEMPTS)
  {
    hide Executed, Traced, Next;
    if n > 1 {
      CorrectedWithAnAttemptLeft(cfg, worlds, rounds, used, trace, n - 1);
      TracedAt(cfg, worlds, rounds, used, trace, n - 1);
      assert trace[..n][..n - 1] == trace[..n - 1] && trace[..n - 1][n - 2] == trace[n - 2];
      ValidatedNext(ProgressOf(trace[..n - 1], rounds, used), trace[n - 2], rounds(n - 2));
    }
  }

  lemma UnsoundNeeds(cfg: Config, builder: bool, used: nat, worlds: nat -> nat -> World, rounds: nat -> Round, trace: seq<Call>,
                     detail: Detail)
    requires ReturnsUnsound(cfg, builder, used, worlds, rounds, trace, detail)
    ensures builder && cfg.guardsInvariants && used < MAX_CORRECTION_ATTEMPTS
  {
    assert trace != [] && trace[..|trace|] == trace;
    CompleteIsSoundUnlessForced(cfg, worlds, rounds, used, trace, detail);
    CorrectedWithAnAttemptLeft(cfg, worlds, rounds, used, trace, |trace|);
    hide Traced, Sound, Next, FollowsAt, Leaves, HasMutation;
    assert |trace| > 1;
  }

  lemma ForcedIsUnsound(cfg: Config, used: nat, detail: Detail)
    requires cfg.guardsInvariants && used < MAX_CORRECTION_ATTEMPTS
    requires detail == Detail(Leaves(Progress(true, false, used, 0), BAD_CALL), BAD_CALL.steps, used)
    ensures ReturnsUnsound(cfg, true, used, FirstWell, OneCorrection, [GOOD_CALL, BAD_CALL], detail)
  {
    var trace := [GOOD_CALL, BAD_CALL];
    ForcedTrace(cfg, used);
    hide Traced, Stopped, ProgressOf, Sound;
    CompleteIsSoundUnlessForced(cfg, FirstWell, OneCorrection, used, trace, detail);
  }

  /** Whether a run can be returned complete without having been soundly completed is known before the call: exactly for a builder
    * run whose template guards invariants, with a correction attempt left. */
  lemma UnsoundCompleteExactlyWhen(cfg: Config, builder: bool, used: nat)
    ensures (exists worlds, rounds, trace, detail :: ReturnsUnsound(cfg, builder, used, worlds, rounds, trace, detail)) <==>
              builder && cfg.guardsInvariants && used < MAX_CORRECTION_ATTEMPTS
  {
    hide ReturnsUnsound;
    forall worlds, rounds, trace, detail | ReturnsUnsound(cfg, builder, used, worlds, rounds, trace, detail)
      ensures builder && cfg.guardsInvariants && used < MAX_CORRECTION_ATTEMPTS
    {
      UnsoundNeeds(cfg, builder, used, worlds, rounds, trace, detail);
    }
    if builder && cfg.guardsInvariants && used < MAX_CORRECTION_ATTEMPTS {
      ForcedIsUnsound(cfg, used, Detail(Leaves(Progress(true, false, used, 0), BAD_CALL), BAD_CALL.steps, used));
    }
  }

  // ---- recorded steps stay in the order of their indices --------------------------------------------------------

  predicate InOrder(steps: seq<Record>) {
    forall i, j :: 0 <= i < j < |steps| ==> steps[i].index < steps[j].index
  }

  predicate Below(steps: seq<Record>, n: nat) {
    forall i :: 0 <= i < |steps| ==> steps[i].index < n
  }

  lemma ExecutionStaysInOrder(cfg: Config, oracle: nat -> World, c: Call)
    requires Executed(cfg, oracle, c) && InOrder(c.prior) && Below(c.prior, c.start)
    ensures InOrder(c.steps) && Below(c.steps, c.start + |c.steps| - |c.prior|)
  {
    hide Ended, PlanAfter, CountersAfter, InitialCounters, Ledger;
    var records := c.steps[|c.prior|..];
    assert c.steps == c.prior + records;
    forall k | 0 <= k < |records|
      ensures records[k].index == c.start + k
    {
      assert UnfoldsAt(cfg, oracle, c.start, c.plan, records, k);
    }
    hide Executed;
  }

  lemma EndOfComplete(cfg: Config, oracle: nat -> World, c: Call)
    requires Executed(cfg, oracle, c) && c.run.status == Complete
    ensures c.run.index == c.start + |c.steps| - |c.prior|
  {
    CompleteStartsInside(cfg, oracle, c);
    hide Unfolds, PlanAfter, Ledger, Finishes, FollowedUp, RollsBack, Decide;
  }

  /** Where a forced run goes on: one after its last step, which is still in the plan. */
  lemma EndOfForced(cfg: Config, oracle: nat -> World, p: Progress, c: Call)
    requires Executed(cfg, oracle, c) && c.start < |c.plan| && Forces(p, c)
    ensures c.steps != [] && Leaves(p, c).index == c.steps[|c.steps| - 1].index + 1
  {
    hide Finishes, FollowedUp, RollsBack, Decide, PlanAfter, Ledger, CountersAfter, InitialCounters;
    LastRecord(cfg, oracle, c);
    var records := c.steps[|c.prior|..];
    var n := |records| - 1;
    assert c.steps[|c.steps| - 1] == records[n];
    assert UnfoldsAt(cfg, oracle, c.start, c.plan, records, n);
    LedgerBound(cfg, oracle, c.start, c.plan, records);
    assert records[n].index == c.start + n < |c.run.plan|;
    hide UnfoldsAt, Unfolds;
  }

  /** One execution goes on behind everything the one before recorded. */
  lemma NextStartsBehind(cfg: Config, oracle: nat -> World, p: Progress, c: Call, round: Round)
    requires Executed(cfg, oracle, c) && InOrder(c.steps) && Below(c.steps, c.start + |c.steps| - |c.prior|)
    requires Next(p, c, round).Some? && (p.validated ==> c.start < |c.plan|)
    ensures Below(c.steps, Next(p, c, round).value.start)
  {
    hide Executed, Insert;
    if Forces(p, c) {
      EndOfForced(cfg, oracle, p, c);
    } else if c.run.status == Complete {
      EndOfComplete(cfg, oracle, c);
    }
    hide Forces, BreaksInvariant;
  }

  /** If the steps a run already has are in order and before its start, the driver only ever records further ones behind them:
    * sorting the steps by index, as is done after each, changes nothing. */
  lemma {:induction false} StepsStayInOrder(cfg: Config, worlds: nat -> nat -> World, rounds: nat -> Round, used: nat,
                                            trace: seq<Call>, n: nat)
    requires Traced(cfg, worlds, rounds, used, trace, false) && n < |trace|
    requires InOrder(trace[0].prior) && Below(trace[0].prior, trace[0].start)
    ensures InOrder(trace[n].prior) && Below(trace[n].prior, trace[n].start) && InOrder(trace[n].steps)
  {
    hide Executed, Traced, Next, ProgressOf, InOrder, Below;
    TracedAt(cfg, worlds, rounds, used, trace, n);
    if n > 0 {
      var c, p := trace[n - 1], ProgressOf(trace[..n], rounds, used);
      StepsStayInOrder(cfg, worlds, rounds, used, trace, n - 1);
      TracedAt(cfg, worlds, rounds, used, trace, n - 1);
      ExecutionStaysInOrder(cfg, worlds(n - 1), c);
      if p.validated {
        PrefixTraced(cfg, worlds, rounds, used, trace, n);
        CorrectionStartsInside(cfg, worlds, rounds, used, trace[..n]);
      }
      NextStartsBehind(cfg, worlds(n - 1), p, c, rounds(n - 1));
    }
    ExecutionStaysInOrder(cfg, worlds(n), trace[n]);
  }

  lemma PrefixTraced(cfg: Config, worlds: nat -> nat -> World, rounds: nat -> Round, used: nat, trace: seq<Call>, n: nat)
    requires Traced(cfg, worlds, rounds, used, trace, false) && 0 < n <= |trace|
    ensures Traced(cfg, worlds, rounds, used, trace[..n], false)
  {
    hide Executed, Next, ProgressOf;
    forall i | 0 < i < n
      ensures FollowsAt(trace[..n], rounds, used, i)
    {
      assert FollowsAt(trace, rounds, used, i);
      assert trace[..n][..i] == trace[..i];
    }
  }
}
