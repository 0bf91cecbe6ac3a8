/** The auto-correction driver: it validates a finished run and executes it again with corrections, a bounded number of times. */
module KernelDriver {
  import opened Wrappers
  import opened ValidationModes
  import opened KernelLoop
  import opened KernelExecution

  const MAX_CORRECTION_ATTEMPTS: nat := 2
  const MAX_INVARIANT_RETRIES: nat := 3

  datatype Detail = Detail(run: Run, steps: seq<Record>, correctionAttempts: int)

  /** What validating a finished run says: `debt` is a provisional fix that leaves stubs behind. */
  datatype Validation = Validation(ok: bool, debt: bool, correctable: bool)

  /** A round of the driver: NoPlan covers a planner that throws, declines or returns no steps. */
  datatype Plan = NoPlan | Steps(steps: seq<Step>)
  datatype Round = Round(validation: Validation, plan: Plan)

  function AttemptsUsed(attempts: int): nat {
    if attempts < 0 then 0 else attempts
  }

  function RetriesAt(retries: map<nat, nat>, attempt: nat): nat {
    if attempt in retries then retries[attempt] else 0
  }

  function Min(a: nat, b: nat): nat {
    if a <= b then a else b
  }

  /** How many executions one run can cost from a given number of attempts. */
  function MaxCalls(attempts: nat): nat {
    if attempts < MAX_CORRECTION_ATTEMPTS then 1 + (MAX_INVARIANT_RETRIES + 1) * (MAX_CORRECTION_ATTEMPTS - attempts)
    else 1 + MAX_INVARIANT_RETRIES
  }

  predicate BreaksInvariant(steps: seq<Record>) {
    steps != [] && steps[|steps| - 1].violation
  }

  /** The index of the failed step; a zero counts as missing, and then the run's own index is taken. */
  function FailedAt(run: Run, steps: seq<Record>): nat {
    if steps != [] && steps[|steps| - 1].index != 0 then steps[|steps| - 1].index else run.index
  }

  predicate HasMutation(plan: seq<Step>) {
    exists k :: 0 <= k < |plan| && plan[k].tool == AiMutation
  }

  // ---- the executions of one run -------------------------------------------------------------------------

  /** One execution: the plan it was given, where it started, the steps recorded before it, and what it left. */
  datatype Call = Call(plan: seq<Step>, start: nat, prior: seq<Record>, run: Run, steps: seq<Record>)

  ghost predicate Executed(cfg: Config, oracle: nat -> World, c: Call) {
    && |c.prior| <= |c.steps| && c.steps[..|c.prior|] == c.prior
    && var records := c.steps[|c.prior|..];
       && Ended(cfg, oracle, c.start, c.prior, records, c.run)
       && Unfolds(cfg, oracle, c.start, c.plan, records) && c.run.plan == PlanAfter(cfg, c.start, c.plan, records)
       && (c.start <= |c.plan| ==> Ledger(cfg, oracle, c.start, InitialCounters(c.plan), records, c.run.plan))
  }

  // ---- what the driver makes of them ---------------------------------------------------------------------

  /** What the driver knows when it starts an execution: whether a validation came before it and whether that one was
    * passed with debt, the attempts used, and the invariant failures at this number of attempts. */
  datatype Progress = Progress(validated: bool, debt: bool, used: nat, failures: nat)

  datatype Given = Given(plan: seq<Step>, start: nat, progress: Progress)

  /** A correction that failed on an invariant is forced to `complete`, up to three times at one number of attempts. */
  predicate Forces(p: Progress, c: Call) {
    p.validated && !p.debt && c.run.status != Complete && BreaksInvariant(c.steps) && p.failures < MAX_INVARIANT_RETRIES
  }

  /** The run as the driver goes on with it; a forced one stands after the step that failed. */
  function Leaves(p: Progress, c: Call): Run {
    if Forces(p, c)
    then c.run.(status := Complete, index := Min(|c.run.plan|, FailedAt(c.run, c.steps) + 1))
    else c.run
  }

  /** Each correction that completes uses up an attempt. */
  function UsedAfter(p: Progress, c: Call): nat {
    p.used + (if p.validated && c.run.status == Complete then 1 else 0)
  }

  function FailuresAfter(p: Progress, c: Call): nat {
    if Forces(p, c) then p.failures + 1 else if p.validated && c.run.status == Complete then 0 else p.failures
  }

  /** A validation asks for a correction when it failed in a way that can be corrected, or passed with debt after a correction. */
  predicate Wants(p: Progress, v: Validation) {
    if v.ok then p.validated && v.debt else v.correctable
  }

  /** What is executed next, if anything is. A run that failed on an invariant before any validation gets the planner's steps
    * inserted after the failed one; a run that counts as complete is validated and gets them appended. */
  function Next(p: Progress, c: Call, round: Round): Option<Given> {
    var run := Leaves(p, c);
    if round.plan.NoPlan? || round.plan.steps == [] then None
    else if run.status == Complete then
      if Wants(p, round.validation) && UsedAfter(p, c) < MAX_CORRECTION_ATTEMPTS
      then Some(Given(run.plan + round.plan.steps, run.index, Progress(true, round.validation.ok, UsedAfter(p, c), FailuresAfter(p, c))))
      else None
    else if !p.validated && BreaksInvariant(c.steps) && p.failures < MAX_INVARIANT_RETRIES then
      var at := c.steps[|c.steps| - 1].index + 1;
      Some(Given(Insert(run.plan, Min(at, |run.plan|), round.plan.steps), at, p.(failures := p.failures + 1)))
    else None
  }

  /** The progress with which the last execution of a trace was started; round i decides what follows execution i. */
  function ProgressOf(trace: seq<Call>, rounds: nat -> Round, used: nat): Progress {
    if |trace| <= 1 then Progress(false, false, used, 0)
    else
      var before := trace[..|trace| - 1];
      match Next(ProgressOf(before, rounds, used), before[|before| - 1], rounds(|before| - 1))
      case Some(given) => given.progress
      case None => Progress(false, false, used, 0)
  }

  ghost predicate FollowsAt(trace: seq<Call>, rounds: nat -> Round, used: nat, i: nat)
    requires 0 < i < |trace|
  {
    var next := Next(ProgressOf(trace[..i], rounds, used), trace[i - 1], rounds(i - 1));
    && next.Some? && trace[i].prior == trace[i - 1].steps
    && trace[i].plan == next.value.plan && trace[i].start == next.value.start
  }

  ghost predicate LosesLock(oracle: nat -> World) {
    exists k :: !oracle(k).lockHeld
  }

  /** Every execution is one of the loop, and each after the first is what the round before it calls for. Only the last may
    * have thrown, which it does when the execution lock is lost. */
  ghost predicate Traced(cfg: Config, worlds: nat -> nat -> World, rounds: nat -> Round, used: nat, trace: seq<Call>, threw: bool) {
    && trace != []
    && (forall i :: 0 <= i < |trace| && (i < |trace| - 1 || !threw) ==> Executed(cfg, worlds(i), trace[i]))
    && (forall i :: 0 < i < |trace| ==> FollowsAt(trace, rounds, used, i))
    && (threw ==> LosesLock(worlds(|trace| - 1)))
  }

  /** Why the driver stopped: it threw, there was nothing it may correct, or nothing is to be executed next. */
  ghost predicate Stopped(builder: bool, rounds: nat -> Round, used: nat, trace: seq<Call>, threw: bool)
    requires trace != []
  {
    || threw
    || (if builder && HasMutation(trace[0].run.plan)
        then Next(ProgressOf(trace, rounds, used), trace[|trace| - 1], rounds(|trace| - 1)) == None
        else |trace| == 1)
  }

  /** What is returned of the last execution. */
  ghost predicate Shows(detail: Detail, p: Progress, c: Call) {
    detail.run == Leaves(p, c) && detail.steps == c.steps && AttemptsUsed(detail.correctionAttempts) == UsedAfter(p, c)
  }

  lemma TraceGrows(cfg: Config, worlds: nat -> nat -> World, rounds: nat -> Round, used: nat, trace: seq<Call>, c: Call, threw: bool)
    requires Traced(cfg, worlds, rounds, used, trace, false)
    requires var next := Next(ProgressOf(trace, rounds, used), trace[|trace| - 1], rounds(|trace| - 1));
             next.Some? && c.prior == trace[|trace| - 1].steps && c.plan == next.value.plan && c.start == next.value.start
    requires if threw then LosesLock(worlds(|trace|)) else Executed(cfg, worlds(|trace|), c)
    ensures Traced(cfg, worlds, rounds, used, trace + [c], threw)
    ensures ProgressOf(trace + [c], rounds, used) ==
              Next(ProgressOf(trace, rounds, used), trace[|trace| - 1], rounds(|trace| - 1)).value.progress
  {
    hide Executed, Next, ProgressOf;
    var grown := trace + [c];
    assert grown[..|trace|] == trace;
    forall i | 0 < i < |grown|
      ensures FollowsAt(grown, rounds, used, i)
    {
      assert grown[..i] == trace[..i];
      if i < |trace| { assert FollowsAt(trace, rounds, used, i); }
    }
    ProgressUnfolds(trace, c, rounds, used);
  }

  lemma ProgressUnfolds(trace: seq<Call>, c: Call, rounds: nat -> Round, used: nat)
    requires trace != [] && Next(ProgressOf(trace, rounds, used), trace[|trace| - 1], rounds(|trace| - 1)).Some?
    ensures ProgressOf(trace + [c], rounds, used) ==
              Next(ProgressOf(trace, rounds, used), trace[|trace| - 1], rounds(|trace| - 1)).value.progress
  {
    hide Next;
    assert (trace + [c])[..|trace|] == trace;
  }

  // ---- the limit -------------------------------------------------------------------------------------------

  /** How many executions may still be started. */
  function StartsLeft(used: nat, failures: nat): int {
    if used < MAX_CORRECTION_ATTEMPTS
    then (MAX_INVARIANT_RETRIES + 1) * (MAX_CORRECTION_ATTEMPTS - used) - failures else 0
  }

  /** The executions so far and those that may still follow are within the limit. */
  ghost predicate Within(calls: nat, used: nat, failures: nat, first: nat) {
    && failures <= MAX_INVARIANT_RETRIES
    && first <= used && (used > first ==> used <= MAX_CORRECTION_ATTEMPTS)
    && calls + StartsLeft(used, failures) <= MaxCalls(first)
  }

  lemma WithinLimit(calls: nat, used: nat, failures: nat, first: nat)
    requires Within(calls, used, failures, first)
    ensures failures <= MAX_INVARIANT_RETRIES && 0 <= StartsLeft(used, failures) && calls <= MaxCalls(first)
    ensures used > first ==> used <= MAX_CORRECTION_ATTEMPTS
    ensures used < MAX_CORRECTION_ATTEMPTS ==> calls + 1 <= MaxCalls(first)
  {
  }

  lemma AttemptSpent(calls: nat, used: nat, failures: nat, first: nat)
    requires Within(calls, used, failures, first) && used < MAX_CORRECTION_ATTEMPTS
    ensures Within(calls + 1, used + 1, 0, first) && StartsLeft(used + 1, 0) < StartsLeft(used, failures)
  {
  }

  lemma RetrySpent(calls: nat, used: nat, failures: nat, first: nat)
    requires Within(calls, used, failures, first) && used < MAX_CORRECTION_ATTEMPTS && failures < MAX_INVARIANT_RETRIES
    ensures Within(calls + 1, used, failures + 1, first) && StartsLeft(used, failures + 1) < StartsLeft(used, failures)
  {
  }

  lemma StartsWithin(used: nat, failures: nat)
    requires failures <= MAX_INVARIANT_RETRIES
    ensures Within(1 + failures, used, failures, used)
  {
  }

  lemma NoRetriesAtAll(used: nat)
    ensures RetriesAt(map[], used) == 0
  {
  }

  lemma NoRetriesYet(retries: map<nat, nat>, used: nat)
    requires forall a :: a in retries ==> a <= used
    ensures RetriesAt(retries, used + 1) == 0 && RetriesAt(retries - {used}, used + 1) == 0
  {
  }

  lemma RetryCounted(retries: map<nat, nat>, used: nat, failures: nat)
    ensures RetriesAt(retries[used := failures], used) == failures
  {
  }

  // ---- the loops -------------------------------------------------------------------------------------------

  /** One more execution, numbered by the calls before it. */
  method Execute(cfg: Config, plan: seq<Step>, start: nat, prior: seq<Record>, attempts: int,
                 worlds: nat -> nat -> World, calls: nat)
    returns (detail: Detail, threw: bool, ghost call: Call)
    ensures detail.correctionAttempts == attempts
    ensures call == Call(plan, start, prior, detail.run, detail.steps)
    ensures if threw then LosesLock(worlds(calls)) else Executed(cfg, worlds(calls), call)
  {
    hide Ended, Ledger, Budget, InitialCounters, Unfolds, PlanAfter;
    var run, steps;
    ghost var records;
    run, steps, threw, records := ExecuteLoop(cfg, plan, start, prior, worlds(calls));
    detail := Detail(run, steps, attempts);
    call := Call(plan, start, prior, run, steps);
    assert steps[|prior|..] == records;
  }

  /** The first loop at its head, before any validation: every failure so far was retried. */
  ghost predicate Retrying(cfg: Config, worlds: nat -> nat -> World, rounds: nat -> Round, used: nat, trace: seq<Call>, detail: Detail,
                           failures: nat)
  {
    && Traced(cfg, worlds, rounds, used, trace, false)
    && ProgressOf(trace, rounds, used) == Progress(false, false, used, failures)
    && detail.run == trace[|trace| - 1].run && detail.steps == trace[|trace| - 1].steps
    && AttemptsUsed(detail.correctionAttempts) == used
  }

  lemma RetryIsNext(c: Call, used: nat, failures: nat, round: Round)
    requires c.run.status != Complete
    ensures var p := Progress(false, false, used, failures);
            Next(p, c, round) ==
            (if !BreaksInvariant(c.steps) || failures >= MAX_INVARIANT_RETRIES || round.plan.NoPlan? || round.plan.steps == [] then None
             else var at := c.steps[|c.steps| - 1].index + 1;
                  Some(Given(Insert(c.run.plan, Min(at, |c.run.plan|), round.plan.steps), at, p.(failures := failures + 1))))
  {
  }

  lemma RetryingShows(cfg: Config, worlds: nat -> nat -> World, rounds: nat -> Round, used: nat, trace: seq<Call>, detail: Detail,
                      failures: nat)
    requires Retrying(cfg, worlds, rounds, used, trace, detail, failures)
    ensures trace != [] && Shows(detail, ProgressOf(trace, rounds, used), trace[|trace| - 1])
  {
    hide ProgressOf;
  }

  /** The first loop: a run that failed on an invariant gets correction steps inserted after the failed one. */
  method RetryInvariantFailures(cfg: Config, began: Detail, worlds: nat -> nat -> World, rounds: nat -> Round,
                                ghost first: seq<Call>)
    returns (detail: Detail, calls: nat, retries: map<nat, nat>, over: bool, threw: bool, ghost trace: seq<Call>)
    requires |first| == 1 && Retrying(cfg, worlds, rounds, AttemptsUsed(began.correctionAttempts), first, began, 0)
    ensures calls == |trace| && first <= trace && detail.correctionAttempts == began.correctionAttempts
    ensures calls <= 1 + MAX_INVARIANT_RETRIES
    ensures Traced(cfg, worlds, rounds, AttemptsUsed(began.correctionAttempts), trace, threw)
    ensures var used := AttemptsUsed(began.correctionAttempts);
            !over ==>
              && (forall a :: a in retries ==> a == used)
              && calls == 1 + RetriesAt(retries, used) && RetriesAt(retries, used) <= MAX_INVARIANT_RETRIES
              && detail.run.status == Complete && Retrying(cfg, worlds, rounds, used, trace, detail, RetriesAt(retries, used))
    ensures threw ==> over
    ensures var used := AttemptsUsed(began.correctionAttempts);
            over && !threw ==>
              && detail.run.status != Complete && Shows(detail, ProgressOf(trace, rounds, used), trace[|trace| - 1])
              && Next(ProgressOf(trace, rounds, used), trace[|trace| - 1], rounds(|trace| - 1)) == None
  {
    hide Traced, Executed, BreaksInvariant, ProgressOf, Next, Shows, RetriesAt, Insert;
    NoRetriesAtAll(AttemptsUsed(began.correctionAttempts));
    var used := AttemptsUsed(began.correctionAttempts);
    detail, calls, retries, over, threw, trace := began, 1, map[], false, false, first;
    while detail.run.status != Complete
      invariant calls == 1 + RetriesAt(retries, used) && RetriesAt(retries, used) <= MAX_INVARIANT_RETRIES
      invariant forall a :: a in retries ==> a == used
      invariant detail.correctionAttempts == began.correctionAttempts && !over && !threw
      invariant calls == |trace| && first <= trace
      invariant Retrying(cfg, worlds, rounds, used, trace, detail, RetriesAt(retries, used))
      decreases MAX_INVARIANT_RETRIES - RetriesAt(retries, used)
    {
      over := true;
      RetryingShows(cfg, worlds, rounds, used, trace, detail, RetriesAt(retries, used));
      RetryIsNext(trace[|trace| - 1], used, RetriesAt(retries, used), rounds(calls - 1));
      if !BreaksInvariant(detail.steps) { return; }
      HasLast(detail.steps);
      var failedStep := detail.steps[|detail.steps| - 1];
      var invariantRetries := RetriesAt(retries, used) + 1;
      RetryCounted(retries, used, invariantRetries);
      retries := retries[used := invariantRetries];
      if invariantRetries > MAX_INVARIANT_RETRIES { return; }
      var next := rounds(calls - 1).plan;
      if next.NoPlan? || next.steps == [] { return; }
      var at := failedStep.index + 1;
      var updated := Insert(detail.run.plan, Min(at, |detail.run.plan|), next.steps);
      ghost var call;
      detail, threw, call := Execute(cfg, updated, at, detail.steps, detail.correctionAttempts, worlds, calls);
      TraceGrows(cfg, worlds, rounds, used, trace, call, threw);
      trace := trace + [call];
      calls := calls + 1;
      if threw { return; }
      over := false;
    }
  }

  lemma HasLast(steps: seq<Record>)
    requires BreaksInvariant(steps)
    ensures steps != []
  {
  }

  /** The second loop at its head: the run counts as complete and is about to be validated. */
  ghost predicate Validating(cfg: Config, worlds: nat -> nat -> World, rounds: nat -> Round, first: nat, trace: seq<Call>, detail: Detail,
                             used: nat, failures: nat, learned: bool)
  {
    && Traced(cfg, worlds, rounds, first, trace, false) && detail.run.status == Complete
    && var p, c := ProgressOf(trace, rounds, first), trace[|trace| - 1];
       Shows(detail, p, c) && UsedAfter(p, c) == used && FailuresAfter(p, c) == failures && p.validated == learned
  }

  lemma ValidatingStarts(cfg: Config, worlds: nat -> nat -> World, rounds: nat -> Round, used: nat, trace: seq<Call>, detail: Detail,
                         failures: nat)
    requires Retrying(cfg, worlds, rounds, used, trace, detail, failures) && detail.run.status == Complete
    ensures Validating(cfg, worlds, rounds, used, trace, detail, used, failures, false)
  {
    RetryingShows(cfg, worlds, rounds, used, trace, detail, failures);
    hide ProgressOf;
  }

  /** What the validation of a complete run leads to. */
  lemma ValidationIsNext(cfg: Config, worlds: nat -> nat -> World, rounds: nat -> Round, first: nat, trace: seq<Call>, detail: Detail,
                         used: nat, failures: nat, learned: bool, round: Round)
    requires Validating(cfg, worlds, rounds, first, trace, detail, used, failures, learned)
    ensures trace != [] && Traced(cfg, worlds, rounds, first, trace, false) && detail.run.status == Complete
    ensures Shows(detail, ProgressOf(trace, rounds, first), trace[|trace| - 1]) && detail.steps == trace[|trace| - 1].steps
    ensures var v := round.validation;
            Next(ProgressOf(trace, rounds, first), trace[|trace| - 1], round) ==
            if || round.plan.NoPlan? || round.plan.steps == [] || used >= MAX_CORRECTION_ATTEMPTS
               || !(if v.ok then learned && v.debt else v.correctable)
            then None
            else Some(Given(detail.run.plan + round.plan.steps, detail.run.index, Progress(true, v.ok, used, failures)))
  {
    hide ProgressOf;
  }

  /** A correction that completed uses up an attempt and is validated again. */
  lemma CorrectionCompletes(cfg: Config, worlds: nat -> nat -> World, rounds: nat -> Round, first: nat, trace: seq<Call>, detail: Detail,
                            p: Progress)
    requires Traced(cfg, worlds, rounds, first, trace, false) && ProgressOf(trace, rounds, first) == p && p.validated
    requires var c := trace[|trace| - 1]; detail.run == c.run && detail.steps == c.steps && c.run.status == Complete
    requires AttemptsUsed(detail.correctionAttempts) == p.used + 1
    ensures Validating(cfg, worlds, rounds, first, trace, detail, p.used + 1, 0, true)
  {
    hide ProgressOf;
  }

  /** One that failed on an invariant is forced to complete while retries are left. */
  lemma CorrectionForced(cfg: Config, worlds: nat -> nat -> World, rounds: nat -> Round, first: nat, trace: seq<Call>, detail: Detail,
                         p: Progress)
    requires Traced(cfg, worlds, rounds, first, trace, false) && ProgressOf(trace, rounds, first) == p
    requires p.validated && !p.debt && p.failures < MAX_INVARIANT_RETRIES
    requires var c := trace[|trace| - 1];
             && c.run.status != Complete && BreaksInvariant(c.steps) && detail.steps == c.steps
             && detail.run == c.run.(status := Complete, index := Min(|c.run.plan|, FailedAt(c.run, c.steps) + 1))
    requires AttemptsUsed(detail.correctionAttempts) == p.used
    ensures Validating(cfg, worlds, rounds, first, trace, detail, p.used, p.failures + 1, true)
  {
    hide ProgressOf;
  }

  /** Any other one that did not complete ends the driver. */
  lemma CorrectionFails(rounds: nat -> Round, first: nat, trace: seq<Call>, detail: Detail, p: Progress, round: Round)
    requires trace != [] && ProgressOf(trace, rounds, first) == p && p.validated
    requires var c := trace[|trace| - 1];
             && c.run.status != Complete && detail.run == c.run && detail.steps == c.steps
             && (p.debt || !BreaksInvariant(c.steps) || p.failures >= MAX_INVARIANT_RETRIES)
    requires AttemptsUsed(detail.correctionAttempts) == p.used
    ensures Shows(detail, p, trace[|trace| - 1]) && Next(p, trace[|trace| - 1], round) == None
  {
    hide ProgressOf;
  }

  /** The second loop: a finished run is validated, and executed again with the planner's steps appended. */
  method CorrectValidationFailures(cfg: Config, began: Detail, worlds: nat -> nat -> World, rounds: nat -> Round,
                                   callsBefore: nat, retriesBefore: map<nat, nat>, ghost before: seq<Call>)
    returns (detail: Detail, calls: nat, threw: bool, ghost trace: seq<Call>)
    requires var used := AttemptsUsed(began.correctionAttempts);
             && (forall a :: a in retriesBefore ==> a == used)
             && callsBefore == |before| == 1 + RetriesAt(retriesBefore, used) && RetriesAt(retriesBefore, used) <= MAX_INVARIANT_RETRIES
             && Validating(cfg, worlds, rounds, used, before, began, used, RetriesAt(retriesBefore, used), false)
    ensures 1 <= calls <= MaxCalls(AttemptsUsed(began.correctionAttempts))
    ensures began.correctionAttempts <= detail.correctionAttempts
    ensures detail.correctionAttempts > began.correctionAttempts ==> 0 <= detail.correctionAttempts <= MAX_CORRECTION_ATTEMPTS
    ensures calls == |trace| && before <= trace
    ensures Traced(cfg, worlds, rounds, AttemptsUsed(began.correctionAttempts), trace, threw)
    ensures var first := AttemptsUsed(began.correctionAttempts);
            !threw ==>
              && Shows(detail, ProgressOf(trace, rounds, first), trace[|trace| - 1])
              && Next(ProgressOf(trace, rounds, first), trace[|trace| - 1], rounds(|trace| - 1)) == None
  {
    hide Traced, Executed, BreaksInvariant, ProgressOf, Next, FailedAt, Within, StartsLeft, MaxCalls, Validating, Shows, RetriesAt,
      Leaves, Forces, UsedAfter, FailuresAfter, Wants, Min;
    var used := AttemptsUsed(began.correctionAttempts);
    detail, calls, threw, trace := began, callsBefore, false, before;
    var pendingLearning := false;
    var retries: map<nat, nat> := retriesBefore;
    ghost var first := used;
    StartsWithin(used, RetriesAt(retries, used));
    // Every way around the loop leaves the run complete.
    while true
      invariant used == AttemptsUsed(detail.correctionAttempts) && Within(calls, used, RetriesAt(retries, used), first)
      invariant forall a :: a in retries ==> a <= used
      invariant began.correctionAttempts <= detail.correctionAttempts
      invariant detail.correctionAttempts > began.correctionAttempts ==> 0 <= detail.correctionAttempts <= MAX_CORRECTION_ATTEMPTS
      invariant calls == |trace| >= 1 && before <= trace && !threw
      invariant Validating(cfg, worlds, rounds, first, trace, detail, used, RetriesAt(retries, used), pendingLearning)
      decreases StartsLeft(used, RetriesAt(retries, used))
    {
      ghost var failures := RetriesAt(retries, used);
      WithinLimit(calls, used, failures, first);
      ValidationIsNext(cfg, worlds, rounds, first, trace, detail, used, failures, pendingLearning, rounds(calls - 1));
      var validation := rounds(calls - 1).validation;
      var next := rounds(calls - 1).plan;
      var learned := pendingLearning;

      if validation.ok && !(learned && validation.debt) { return; }
      if !validation.ok && !validation.correctable { return; }
      if used >= MAX_CORRECTION_ATTEMPTS { return; }
      if next.NoPlan? || next.steps == [] { return; }
      pendingLearning := true;
      ghost var call;
      var updated := detail.run.plan + next.steps;
      detail, threw, call := Execute(cfg, updated, detail.run.index, detail.steps, detail.correctionAttempts, worlds, calls);
      TraceGrows(cfg, worlds, rounds, first, trace, call, threw);
      trace := trace + [call];
      calls := calls + 1;
      if threw { return; }
      ghost var p := Progress(true, validation.ok, used, failures);
      if detail.run.status == Complete {
        NoRetriesYet(retries, used);
        if !validation.ok { retries := retries - {used}; }
        AttemptSpent(calls - 1, used, failures, first);
        detail := detail.(correctionAttempts := used + 1);
        used := used + 1;
        CorrectionCompletes(cfg, worlds, rounds, first, trace, detail, p);
        continue;
      }
      if validation.ok || !BreaksInvariant(detail.steps) || failures >= MAX_INVARIANT_RETRIES {
        CorrectionFails(rounds, first, trace, detail, p, rounds(calls - 1));
      }
      if validation.ok || !BreaksInvariant(detail.steps) { return; }
      var at := FailedAt(detail.run, detail.steps);
      var invariantRetries := RetriesAt(retries, used) + 1;
      if invariantRetries <= MAX_INVARIANT_RETRIES { RetrySpent(calls - 1, used, failures, first); }
      RetryCounted(retries, used, invariantRetries);
      retries := retries[used := invariantRetries];
      if invariantRetries > MAX_INVARIANT_RETRIES { return; }
      detail := Detail(detail.run.(status := Complete, index := Min(|detail.run.plan|, at + 1)), detail.steps, used);
      CorrectionForced(cfg, worlds, rounds, first, trace, detail, p);
    }
  }

  ghost function MutationAt(plan: seq<Step>): (k: nat)
    requires HasMutation(plan)
    ensures k < |plan| && plan[k].tool == AiMutation
  {
    var k :| 0 <= k < |plan| && plan[k].tool == AiMutation;
    k
  }

  lemma OneCall(cfg: Config, worlds: nat -> nat -> World, rounds: nat -> Round, used: nat, c: Call, threw: bool)
    requires if threw then LosesLock(worlds(0)) else Executed(cfg, worlds(0), c)
    ensures Traced(cfg, worlds, rounds, used, [c], threw) && ProgressOf([c], rounds, used) == Progress(false, false, used, 0)
  {
    hide Executed;
  }

  /** However the planner, the validator and the executions behave, the driver ends after at most MaxCalls executions — nine from
    * zero attempts — and never lowers the attempt count or raises it past two. Which executions it makes, when it stops and what
    * it returns are fixed: each execution is what the round before it calls for, the last is followed by none, and the result is
    * what the last one left, except that a forced run is `complete` although it failed. */
  method ExecuteWithValidationAutoCorrection(cfg: Config, builder: bool, plan: seq<Step>, start: nat, prior: seq<Record>,
                                             attempts: int, worlds: nat -> nat -> World, rounds: nat -> Round)
    returns (detail: Detail, calls: nat, threw: bool, ghost trace: seq<Call>)
    ensures 1 <= calls <= MaxCalls(AttemptsUsed(attempts))
    ensures !threw ==> attempts <= detail.correctionAttempts
    ensures !threw && detail.correctionAttempts > attempts ==> 0 <= detail.correctionAttempts <= MAX_CORRECTION_ATTEMPTS
    ensures calls == |trace| && trace[0].plan == plan && trace[0].start == start && trace[0].prior == prior
    ensures calls > 1 ==> builder && exists k :: 0 <= k < |trace[0].run.plan| && trace[0].run.plan[k].tool == AiMutation
    ensures Traced(cfg, worlds, rounds, AttemptsUsed(attempts), trace, threw)
    ensures Stopped(builder, rounds, AttemptsUsed(attempts), trace, threw)
    ensures !threw ==> Shows(detail, ProgressOf(trace, rounds, AttemptsUsed(attempts)), trace[|trace| - 1])
  {
    hide Traced, Executed, BreaksInvariant, HasMutation, ProgressOf, Next;
    ghost var used := AttemptsUsed(attempts);
    calls := 1;
    ghost var call;
    detail, threw, call := Execute(cfg, plan, start, prior, attempts, worlds, 0);
    OneCall(cfg, worlds, rounds, used, call, threw);
    trace := [call];
    if threw || !builder || !HasMutation(detail.run.plan) { return; }
    ghost var k := MutationAt(call.run.plan);
    var retries, over;
    detail, calls, retries, over, threw, trace := RetryInvariantFailures(cfg, detail, worlds, rounds, trace);
    assert trace[0].run.plan[k].tool == AiMutation;
    if over { return; }
    ValidatingStarts(cfg, worlds, rounds, used, trace, detail, RetriesAt(retries, used));
    detail, calls, threw, trace := CorrectValidationFailures(cfg, detail, worlds, rounds, calls, retries, trace);
    assert trace[0].run.plan[k].tool == AiMutation;
  }
}
