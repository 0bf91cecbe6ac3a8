/** Lifecycle runs: the status graph, one tick of a run, and the stored run that a tick updates in place. */
module LifecycleRun {
  import opened Wrappers

  datatype Status = Queued | Running | Correcting | Optimizing | Validating | Complete | Failed | Cancelled
  datatype Phase = GoalPhase | OptimizationPhase

  // ---- the status graph ---------------------------------------------------------------------------

  function Transitions(from: Status): seq<Status> {
    match from
    case Queued => [Running, Cancelled, Failed]
    case Running => [Correcting, Optimizing, Validating, Failed, Complete, Cancelled]
    case Correcting => [Running, Validating, Failed, Cancelled]
    case Optimizing => [Running, Validating, Failed, Complete, Cancelled]
    case Validating => [Running, Optimizing, Failed, Complete, Cancelled]
    case Complete => []
    case Failed => [Queued]
    case Cancelled => [Queued]
  }

  predicate Edge(from: Status, to: Status) {
    to in Transitions(from)
  }

  predicate Active(s: Status) {
    s == Queued || s == Running || s == Correcting || s == Optimizing || s == Validating
  }

  predicate Runnable(s: Status) {
    s == Running || s == Correcting || s == Optimizing
  }

  // ---- runs -----------------------------------------------------------------------------------------

  /** A step of the run's ledger: its index and the phase it was taken in. */
  datatype Step = Step(index: nat, phase: Phase)

  datatype Run = Run(phase: Phase, status: Status, stepIndex: nat, correctionsUsed: nat, optimizationStepsUsed: nat,
                     maxSteps: nat, maxCorrections: nat, maxOptimizations: nat, steps: seq<Step>)

  /** A requested limit as the source reads it: None stands for what is not a finite number. */
  function NormalizeLimit(value: Option<int>, fallback: int, min: int, max: int): (r: int)
    requires min <= fallback <= max
    ensures min <= r <= max
    ensures value.Some? && min <= value.value <= max ==> r == value.value
    ensures value.None? ==> r == fallback
  {
    match value
    case None => fallback
    case Some(v) => if v < min then min else if v > max then max else v
  }

  function CreateRun(maxSteps: Option<int>, maxCorrections: Option<int>, maxOptimizations: Option<int>): Run {
    Run(GoalPhase, Queued, 0, 0, 0,
        NormalizeLimit(maxSteps, 20, 1, 1000), NormalizeLimit(maxCorrections, 2, 0, 100), NormalizeLimit(maxOptimizations, 2, 0, 100), [])
  }

  /** How many goal steps a run takes; `configured` is the environment's setting, None when it is not a number. */
  function GoalTarget(maxSteps: nat, configured: Option<int>): (t: nat)
    ensures t <= maxSteps && (maxSteps >= 1 ==> t >= 1)
  {
    var fallback := if configured.Some? then (if configured.value < 1 then 1 else configured.value) else 5;
    if maxSteps < fallback then maxSteps else fallback
  }

  datatype Verdict = Continue | Fail | Finish

  function CheckInvariants(run: Run): Verdict {
    if run.stepIndex >= run.maxSteps then Fail
    else if run.correctionsUsed >= run.maxCorrections then Fail
    else if run.phase == OptimizationPhase && run.optimizationStepsUsed >= run.maxOptimizations then Finish
    else Continue
  }

  datatype Outcome = Processed | Skipped | Threw

  datatype Ticked = Ticked(run: Run, outcome: Outcome, reenqueue: bool)

  /** A queued run starts. */
  function Started(run: Run): Run {
    if run.status == Queued then run.(status := Running) else run
  }

  /** The run once its step has been taken. */
  function Stepped(run: Run): Run {
    run.(steps := run.steps + [Step(run.stepIndex, run.phase)],
         stepIndex := run.stepIndex + 1,
         optimizationStepsUsed := run.optimizationStepsUsed + (if run.phase == OptimizationPhase then 1 else 0))
  }

  function Switched(run: Run, configured: Option<int>): Run {
    if run.phase == GoalPhase && run.stepIndex >= GoalTarget(run.maxSteps, configured)
    then run.(phase := OptimizationPhase, status := Optimizing) else run
  }

  predicate Exhausted(run: Run) {
    run.phase == OptimizationPhase && run.optimizationStepsUsed >= run.maxOptimizations
  }

  /** One tick. A transition the graph does not have throws, and the transaction leaves the run as it was. */
  function Tick(run: Run, configured: Option<int>, expected: Option<nat>): Ticked {
    var r := Started(run);
    if !Runnable(r.status) then Ticked(r, Skipped, false)
    else if expected.Some? && r.stepIndex != expected.value then Ticked(r, Skipped, true)
    else match CheckInvariants(r)
      case Fail => Ticked(r.(status := Failed), Skipped, false)
      case Finish => if Edge(r.status, Complete) then Ticked(r.(status := Complete), Skipped, false) else Ticked(run, Threw, false)
      case Continue =>
        var t := Switched(Stepped(r), configured);
        if !Exhausted(t) then Ticked(t, Processed, true)
        else if Edge(t.status, Complete) then Ticked(t.(status := Complete), Processed, false)
        else Ticked(run, Threw, false)
  }

  /** The statuses a tick writes, in order. */
  function Trail(run: Run, configured: Option<int>, expected: Option<nat>): seq<Status> {
    var r := Started(run);
    var begun := if run.status == Queued then [Running] else [];
    var t := Switched(Stepped(r), configured);
    var after := Tick(run, configured, expected);
    if after.outcome == Threw then []
    else if after.outcome == Skipped then begun + (if after.run.status != r.status then [after.run.status] else [])
    else begun + (if t.phase != r.phase then [Optimizing] else []) + (if Exhausted(t) then [Complete] else [])
  }

  predicate CanCancel(run: Run) {
    Edge(run.status, Cancelled)
  }

  predicate CanResume(run: Run) {
    run.status == Cancelled || run.status == Failed
  }

  // ---- the stored run ------------------------------------------------------------------------------------

  /** A tick and the statuses it writes, case by case. */
  lemma TickIs(run: Run, configured: Option<int>, expected: Option<nat>)
    ensures var r := Started(run);
            var begun := if run.status == Queued then [Running] else [];
            var tick, trail := Tick(run, configured, expected), Trail(run, configured, expected);
            if !Runnable(r.status) then tick == Ticked(r, Skipped, false) && trail == begun
            else if expected.Some? && r.stepIndex != expected.value then tick == Ticked(r, Skipped, true) && trail == begun
            else match CheckInvariants(r)
              case Fail => tick == Ticked(r.(status := Failed), Skipped, false) && trail == begun + [Failed]
              case Finish =>
                if Edge(r.status, Complete) then tick == Ticked(r.(status := Complete), Skipped, false) && trail == begun + [Complete]
                else tick == Ticked(run, Threw, false) && trail == []
              case Continue =>
                var t := Switched(Stepped(r), configured);
                if Exhausted(t) && !Edge(t.status, Complete) then tick == Ticked(run, Threw, false) && trail == []
                else
                  && tick == Ticked(if Exhausted(t) then t.(status := Complete) else t, Processed, !Exhausted(t))
                  && trail == begun + (if t.phase != r.phase then [Optimizing] else []) + (if Exhausted(t) then [Complete] else [])
  {
    hide Edge, Switched, Stepped, CheckInvariants, Exhausted;
  }

  class StoredRun {
    var phase: Phase
    var status: Status
    var stepIndex: nat
    var correctionsUsed: nat
    var optimizationStepsUsed: nat
    const maxSteps: nat
    const maxCorrections: nat
    const maxOptimizations: nat
    var steps: seq<Step>

    /** Every status the row has held, in the order written. */
    ghost var statuses: seq<Status>

    function Contents(): Run
      reads this
    {
      Run(phase, status, stepIndex, correctionsUsed, optimizationStepsUsed, maxSteps, maxCorrections, maxOptimizations, steps)
    }

    ghost predicate Valid()
      reads this
    {
      statuses != [] && statuses[|statuses| - 1] == status
    }

    constructor (requestedSteps: Option<int>, requestedCorrections: Option<int>, requestedOptimizations: Option<int>)
      ensures Valid() && Contents() == CreateRun(requestedSteps, requestedCorrections, requestedOptimizations)
      ensures statuses == [Queued]
    {
      phase, status, stepIndex, correctionsUsed, optimizationStepsUsed := GoalPhase, Queued, 0, 0, 0;
      maxSteps := NormalizeLimit(requestedSteps, 20, 1, 1000);
      maxCorrections := NormalizeLimit(requestedCorrections, 2, 0, 100);
      maxOptimizations := NormalizeLimit(requestedOptimizations, 2, 0, 100);
      steps, statuses := [], [Queued];
    }

    method WriteStatus(next: Status)
      requires Valid()
      modifies this`status, this`statuses
      ensures Valid() && status == next && statuses == old(statuses) + [next]
    {
      status := next;
      statuses := statuses + [next];
    }

    /** The step itself: the ledger, the counters and the phase switch. */
    method TakeStep(configured: Option<int>)
      requires Valid()
      modifies this
      ensures Valid() && Contents() == Switched(Stepped(old(Contents())), configured)
      ensures statuses == old(statuses) + (if old(phase) != phase then [Optimizing] else [])
    {
      var stepPhase := phase;
      steps := steps + [Step(stepIndex, stepPhase)];
      stepIndex := stepIndex + 1;
      if stepPhase == OptimizationPhase { optimizationStepsUsed := optimizationStepsUsed + 1; }
      if phase == GoalPhase && stepIndex >= GoalTarget(maxSteps, configured) {
        phase := OptimizationPhase;
        WriteStatus(Optimizing);
      }
    }

    /** The transaction is rolled back. */
    method Restore(before: Run, ghost statusesBefore: seq<Status>)
      requires before.maxSteps == maxSteps && before.maxCorrections == maxCorrections && before.maxOptimizations == maxOptimizations
      modifies this
      ensures Contents() == before && statuses == statusesBefore
    {
      phase, status, stepIndex, correctionsUsed, optimizationStepsUsed, steps :=
        before.phase, before.status, before.stepIndex, before.correctionsUsed, before.optimizationStepsUsed, before.steps;
      statuses := statusesBefore;
    }

    /** One tick of the run, in one transaction. */
    method ExecuteNextStep(configured: Option<int>, expected: Option<nat>) returns (outcome: Outcome, reenqueue: bool)
      requires Valid()
      modifies this
      ensures Valid()
      ensures Ticked(Contents(), outcome, reenqueue) == Tick(old(Contents()), configured, expected)
      ensures statuses == old(statuses) + Trail(old(Contents()), configured, expected)
    {
      hide Edge, Switched, Stepped, CheckInvariants, Exhausted, Tick, Trail;
      var before := Contents();
      TickIs(before, configured, expected);
      ghost var statusesBefore := statuses;
      if status == Queued { WriteStatus(Running); }
      if !Runnable(status) { return Skipped, false; }
      if expected.Some? && stepIndex != expected.value { return Skipped, Active(status); }

      var verdict := CheckInvariants(Contents());
      if verdict == Fail {
        WriteStatus(Failed);
        return Skipped, false;
      }
      if verdict == Finish {
        if !Edge(status, Complete) {
          Restore(before, statusesBefore);
          return Threw, false;
        }
        WriteStatus(Complete);
        return Skipped, false;
      }

      outcome, reenqueue := ProcessStep(configured);
      if outcome == Threw { Restore(before, statusesBefore); }
    }

    /** The step and, if it was the last optimization, the completion; Threw leaves the row to be restored. */
    method ProcessStep(configured: Option<int>) returns (outcome: Outcome, reenqueue: bool)
      requires Valid() && Runnable(status)
      modifies this
      ensures var t := Switched(Stepped(old(Contents())), configured);
              && (outcome == Threw <==> Exhausted(t) && !Edge(t.status, Complete))
              && (outcome != Threw ==>
                    && Valid() && outcome == Processed && reenqueue == !Exhausted(t)
                    && Contents() == (if Exhausted(t) then t.(status := Complete) else t)
                    && statuses == old(statuses) + (if t.phase != old(phase) then [Optimizing] else [])
                                   + (if Exhausted(t) then [Complete] else []))
              && (outcome == Threw ==> !reenqueue)
    {
      hide Edge, Switched, Stepped;
      ghost var before := Contents();
      TakeStep(configured);
      SwitchKeepsActive(before, configured);
      if phase == OptimizationPhase && optimizationStepsUsed >= maxOptimizations {
        if !Edge(status, Complete) { return Threw, false; }
        WriteStatus(Complete);
        return Processed, false;
      }
      outcome, reenqueue := Processed, Active(status);
    }
  }

  lemma SwitchKeepsActive(run: Run, configured: Option<int>)
    requires Runnable(run.status)
    ensures Runnable(Switched(Stepped(run), configured).status) && Active(Switched(Stepped(run), configured).status)
  {
  }
}
