/** A lifecycle run's limits, its status graph and every outcome of a tick, written out on the row. */
module LifecycleRules {
  import opened Wrappers
  import opened SortedText
  import opened LifecycleRun
  import opened LifecycleTheorems
  import opened LifecycleWorker

  // ---- limits and the graph ---------------------------------------------------------------------------------

  /** A requested number within its bounds, or the default where none was given. */
  function Bounded(given: Option<int>, otherwise: int, low: int, high: int): int {
    if given.None? then otherwise else if given.value < low then low else if given.value > high then high else given.value
  }

  /** A new run has twenty steps, two corrections and two optimizations unless told otherwise; up to a thousand, a hundred, a hundred. */
  lemma CreatedWith(maxSteps: Option<int>, maxCorrections: Option<int>, maxOptimizations: Option<int>)
    ensures var run := CreateRun(maxSteps, maxCorrections, maxOptimizations);
            && run.phase == GoalPhase && run.status == Queued && run.stepIndex == 0 && run.steps == []
            && run.correctionsUsed == 0 && run.optimizationStepsUsed == 0
            && run.maxSteps == Bounded(maxSteps, 20, 1, 1000)
            && run.maxCorrections == Bounded(maxCorrections, 2, 0, 100)
            && run.maxOptimizations == Bounded(maxOptimizations, 2, 0, 100)
  {
  }

  /** Five goal steps by default, at least one, and never more than the run has. */
  lemma GoalStepsAre(maxSteps: nat, configured: Option<int>)
    ensures var wanted := if configured.None? then 5 else if configured.value < 1 then 1 else configured.value;
            GoalTarget(maxSteps, configured) == if wanted <= maxSteps then wanted else maxSteps
  {
  }

  /** The status graph. A run that has ended can only be queued again, and a complete one not even that. */
  lemma EdgeExactlyWhen(from: Status, to: Status)
    ensures Edge(from, to) <==>
              || (from == Queued && (to == Running || to == Cancelled || to == Failed))
              || (from == Running && to != Queued && to != Running)
              || (from == Correcting && (to == Running || to == Validating || to == Failed || to == Cancelled))
              || (from == Optimizing && (to == Running || to == Validating || to == Failed || to == Complete || to == Cancelled))
              || (from == Validating && (to == Running || to == Optimizing || to == Failed || to == Complete || to == Cancelled))
              || ((from == Failed || from == Cancelled) && to == Queued)
  {
  }

  /** Every run that has not ended can be cancelled; a failed or cancelled one can be resumed. */
  lemma CancelAndResume(run: Run, configured: Option<int>)
    ensures Apply(run, CancelEvent, configured) ==
              if run.status == Complete || run.status == Failed || run.status == Cancelled then run else run.(status := Cancelled)
    ensures Apply(run, ResumeEvent, configured) ==
              if run.status == Failed || run.status == Cancelled then run.(status := Queued) else run
  {
  }

  // ---- a tick -------------------------------------------------------------------------------------------------

  predicate MayStep(run: Run) {
    run.status == Queued || run.status == Running || run.status == Correcting || run.status == Optimizing
  }

  /** A run the worker may not touch is left alone. */
  lemma OtherRunsAreSkipped(run: Run, configured: Option<int>, expected: Option<nat>)
    requires !MayStep(run)
    ensures Tick(run, configured, expected) == Ticked(run, Skipped, false) && Trail(run, configured, expected) == []
  {
  }

  /** A tick meant for another step only starts the run and asks for another one. */
  lemma OtherStepIsSkipped(run: Run, configured: Option<int>, expected: nat)
    requires MayStep(run) && run.stepIndex != expected
    ensures Tick(run, configured, Some(expected)) ==
              Ticked(run.(status := if run.status == Queued then Running else run.status), Skipped, true)
    ensures Trail(run, configured, Some(expected)) == if run.status == Queued then [Running] else []
  {
  }

  /** A run out of steps or corrections fails; one that has spent its optimizations completes, unless it is correcting: from there the
    * graph has no way to complete, and the tick throws. */
  lemma SpentRunsEnd(run: Run, configured: Option<int>, expected: Option<nat>)
    requires MayStep(run) && (expected.Some? ==> expected.value == run.stepIndex)
    ensures run.stepIndex >= run.maxSteps || run.correctionsUsed >= run.maxCorrections ==>
              && Tick(run, configured, expected) == Ticked(run.(status := Failed), Skipped, false)
              && Trail(run, configured, expected) == (if run.status == Queued then [Running] else []) + [Failed]
    ensures (&& run.stepIndex < run.maxSteps && run.correctionsUsed < run.maxCorrections
             && run.phase == OptimizationPhase && run.optimizationStepsUsed >= run.maxOptimizations) ==>
              if run.status == Correcting
              then Tick(run, configured, expected) == Ticked(run, Threw, false) && Trail(run, configured, expected) == []
              else && Tick(run, configured, expected) == Ticked(run.(status := Complete), Skipped, false)
                   && Trail(run, configured, expected) == (if run.status == Queued then [Running] else []) + [Complete]
  {
  }

  /** The step a run takes: it is recorded under its index and phase. A goal step that is the last one turns the run to optimizing,
    * and a run that has no optimization left after its step completes, unless it is correcting. */
  lemma StepIsTaken(run: Run, configured: Option<int>, expected: Option<nat>)
    requires MayStep(run) && (expected.Some? ==> expected.value == run.stepIndex)
    requires run.stepIndex < run.maxSteps && run.correctionsUsed < run.maxCorrections
    requires run.phase == OptimizationPhase ==> run.optimizationStepsUsed < run.maxOptimizations
    ensures var turns := run.phase == GoalPhase && run.stepIndex + 1 >= GoalTarget(run.maxSteps, configured);
            var spent := run.optimizationStepsUsed + if run.phase == OptimizationPhase then 1 else 0;
            var done := (turns || run.phase == OptimizationPhase) && spent >= run.maxOptimizations;
            var begun := if run.status == Queued then Running else run.status;
            if done && !turns && run.status == Correcting
            then Tick(run, configured, expected) == Ticked(run, Threw, false) && Trail(run, configured, expected) == []
            else && Tick(run, configured, expected).outcome == Processed && Tick(run, configured, expected).reenqueue == !done
                 && Tick(run, configured, expected).run ==
                      Run(if turns then OptimizationPhase else run.phase,
                          if done then Complete else if turns then Optimizing else begun,
                          run.stepIndex + 1, run.correctionsUsed, spent, run.maxSteps, run.maxCorrections, run.maxOptimizations,
                          run.steps + [Step(run.stepIndex, run.phase)])
                 && Trail(run, configured, expected) ==
                      (if run.status == Queued then [Running] else []) + (if turns then [Optimizing] else []) + (if done then [Complete] else [])
  {
    hide GoalTarget;
  }

  // ---- the worker's queue ---------------------------------------------------------------------------------------

  /** A key is the project and the run with a colon between; what is before its first colon is the project. */
  lemma KeyIsSplitAtItsFirstColon(before: Text, after: Text)
    requires 58 !in before
    ensures ToJobKey(before, after) == before + [58] + after
    ensures FromJobKey(before + [58] + after) == Parsed(before, after)
    ensures FromJobKey(before) == Parsed([], before)
  {
    KeyParsesBack(before, after);
    FirstColonMeans(before);
  }

  /** Serving a key ticks the run it names, if that is a run of its project, and touches no other row; the key goes back to the queue
    * exactly when the tick asks for it. */
  lemma ServedExactlyWhen(rows: Rows, before: Text, after: Text, configured: Option<int>)
    requires 58 !in before
    ensures var key := before + [58] + after;
            if after in rows && rows[after].projectId == before
            then && AfterService(rows, key, configured) == rows[after := Row(before, Tick(rows[after].run, configured, None).run)]
                 && (AsksAgain(rows, key, configured) <==> Tick(rows[after].run, configured, None).reenqueue)
            else AfterService(rows, key, configured) == rows && !AsksAgain(rows, key, configured)
  {
    KeyIsSplitAtItsFirstColon(before, after);
    hide Tick, FromJobKey;
  }

  /** What a drain can cost: a service for every step each queued run has left, and one more. */
  lemma {:induction false} DrainCosts(rows: Rows, keys: seq<Text>, k: nat)
    requires k < |keys|
    ensures TotalLeft(rows, keys) >= ServicesLeft(rows, keys[k]) >= 1
    ensures Found(rows, keys[k]) ==>
              var run := RunOf(rows, keys[k]);
              ServicesLeft(rows, keys[k]) == 1 + if run.stepIndex < run.maxSteps then run.maxSteps - run.stepIndex else 0
  {
    if k > 0 { DrainCosts(rows, keys[1..], k - 1); }
  }

  /** A job that is not queued yet is served behind all that are, which are served in the order they wait in; one that is queued
    * already keeps its place. */
  lemma FirstComeFirstServed(queue: seq<Text>, key: Text, log: seq<Service>)
    requires RoundRobin(QueuedWith(queue, key), log, [])
    ensures |log| >= |queue| + if key in queue then 0 else 1
    ensures forall i :: 0 <= i < |queue| ==> log[i].key == queue[i]
    ensures key !in queue ==> log[|queue|].key == key
  {
    var first := QueuedWith(queue, key);
    assert log[..0] == [] && Keys([]) + first == first + Requeued([]);
    NextPassServesTheQueue(first, log, 0, first);
    hide RoundRobin;
    forall i | 0 <= i < |first|
      ensures log[i].key == first[i]
    {
      assert log[0 + i].key == first[i];
    }
  }
}
