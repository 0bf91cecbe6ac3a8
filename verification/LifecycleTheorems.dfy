/** Lifecycle runs over every sequence of ticks, cancels and resumes, and how a run ticked to its end comes out. */
module LifecycleTheorems {
  import opened Wrappers
  import opened LifecycleRun

  datatype Event = TickEvent(expected: Option<nat>) | CancelEvent | ResumeEvent

  /** A request the graph refuses changes nothing. */
  function Apply(run: Run, e: Event, configured: Option<int>): Run {
    match e
    case TickEvent(expected) => Tick(run, configured, expected).run
    case CancelEvent => if CanCancel(run) then run.(status := Cancelled) else run
    case ResumeEvent => if CanResume(run) then run.(status := Queued) else run
  }

  function Play(run: Run, events: seq<Event>, configured: Option<int>): Run {
    if events == [] then run else Apply(Play(run, events[..|events| - 1], configured), events[|events| - 1], configured)
  }

  /** The steps recorded are 0, 1, 2 and so on, goal steps first; the counters and the phase follow from their number. */
  ghost predicate InOrder(run: Run, target: nat) {
    Listed(run.steps, target) && |run.steps| == run.stepIndex && Counted(run, target)
  }

  ghost predicate Listed(steps: seq<Step>, target: nat) {
    forall i :: 0 <= i < |steps| ==> steps[i] == Step(i, if i < target then GoalPhase else OptimizationPhase)
  }

  predicate Counted(run: Run, target: nat) {
    && run.stepIndex <= run.maxSteps
    && (run.phase == GoalPhase <==> run.stepIndex < target)
    && run.optimizationStepsUsed == (if run.stepIndex < target then 0 else run.stepIndex - target) <= run.maxOptimizations
    && run.correctionsUsed == 0
    && run.status != Correcting && run.status != Validating
    && (run.status == Optimizing ==> run.phase == OptimizationPhase)
    && (run.status == Complete ==> run.stepIndex == target + run.maxOptimizations)
  }

  lemma EventKeepsOrder(run: Run, e: Event, configured: Option<int>)
    requires run.maxSteps >= 1 && InOrder(run, GoalTarget(run.maxSteps, configured))
    ensures var t := Apply(run, e, configured);
            && t.maxSteps == run.maxSteps && t.maxCorrections == run.maxCorrections && t.maxOptimizations == run.maxOptimizations
            && InOrder(t, GoalTarget(run.maxSteps, configured)) && run.steps <= t.steps
  {
    hide Listed, GoalTarget;
    var target := GoalTarget(run.maxSteps, configured);
    EventKeepsCounts(run, e, configured);
    EventExtendsSteps(run, e, configured);
    ListedGrows(run.steps, target, run.phase);
  }

  /** What a taken step leaves: one more step, and the run exhausted exactly when all optimizations have been used. */
  lemma StepKeepsCounts(r: Run, configured: Option<int>)
    requires r.maxSteps >= 1 && Counted(r, GoalTarget(r.maxSteps, configured)) && Runnable(r.status) && CheckInvariants(r) == Continue
    ensures var target := GoalTarget(r.maxSteps, configured);
            var t := Switched(Stepped(r), configured);
            && Counted(t, target) && Runnable(t.status) && Edge(t.status, Complete)
            && (t.status == r.status || (r.phase == GoalPhase && t.status == Optimizing))
            && t.stepIndex == r.stepIndex + 1
            && t.maxSteps == r.maxSteps && t.maxCorrections == r.maxCorrections && t.maxOptimizations == r.maxOptimizations
            && (Exhausted(t) <==> t.stepIndex == target + r.maxOptimizations)
            && t.stepIndex <= target + r.maxOptimizations
  {
    hide GoalTarget;
    assert 1 <= GoalTarget(r.maxSteps, configured) <= r.maxSteps;
  }

  lemma CountsWithStatus(run: Run, target: nat, status: Status)
    requires Counted(run, target) && status != Correcting && status != Validating
    requires status == Optimizing ==> run.status == Optimizing
    requires status == Complete ==> run.stepIndex == target + run.maxOptimizations
    ensures Counted(run.(status := status), target)
  {
  }

  lemma EventKeepsCounts(run: Run, e: Event, configured: Option<int>)
    requires run.maxSteps >= 1 && Counted(run, GoalTarget(run.maxSteps, configured))
    ensures var t := Apply(run, e, configured);
            && t.maxSteps == run.maxSteps && t.maxCorrections == run.maxCorrections && t.maxOptimizations == run.maxOptimizations
            && Counted(t, GoalTarget(run.maxSteps, configured))
  {
    match e {
      case TickEvent(expected) => TickKeepsCounts(run, configured, expected);
      case CancelEvent => CountsWithStatus(run, GoalTarget(run.maxSteps, configured), Cancelled);
      case ResumeEvent => CountsWithStatus(run, GoalTarget(run.maxSteps, configured), Queued);
    }
  }

  lemma TickKeepsCounts(run: Run, configured: Option<int>, expected: Option<nat>)
    requires run.maxSteps >= 1 && Counted(run, GoalTarget(run.maxSteps, configured))
    ensures var t := Tick(run, configured, expected).run;
            && t.maxSteps == run.maxSteps && t.maxCorrections == run.maxCorrections && t.maxOptimizations == run.maxOptimizations
            && Counted(t, GoalTarget(run.maxSteps, configured))
    ensures Tick(run, configured, expected).outcome != Threw
  {
    hide GoalTarget, Switched, Stepped, Exhausted;
    var target := GoalTarget(run.maxSteps, configured);
    var r := Started(run);
    CountsWithStatus(run, target, r.status);
    if Runnable(r.status) && (expected.None? || r.stepIndex == expected.value) {
      match CheckInvariants(r) {
        case Fail => CountsWithStatus(r, target, Failed);
        case Finish => CountsWithStatus(r, target, Complete);
        case Continue =>
          StepKeepsCounts(r, configured);
          var t := Switched(Stepped(r), configured);
          if Exhausted(t) { CountsWithStatus(t, target, Complete); }
      }
    }
  }

  lemma EventExtendsSteps(run: Run, e: Event, configured: Option<int>)
    requires |run.steps| == run.stepIndex
    ensures var t := Apply(run, e, configured);
            || (t.steps == run.steps && t.stepIndex == run.stepIndex)
            || (t.steps == run.steps + [Step(run.stepIndex, run.phase)] && t.stepIndex == run.stepIndex + 1)
  {
    hide Edge, CheckInvariants, GoalTarget;
  }

  lemma ListedGrows(steps: seq<Step>, target: nat, phase: Phase)
    requires Listed(steps, target) && (phase == GoalPhase <==> |steps| < target)
    ensures Listed(steps + [Step(|steps|, phase)], target)
  {
  }

  /** Over any sequence of ticks, cancels and resumes the ledger has no gap and no repeat, and its phases and counts are right. */
  lemma {:induction false} LedgerHasNoGaps(run: Run, events: seq<Event>, configured: Option<int>)
    requires run.maxSteps >= 1 && InOrder(run, GoalTarget(run.maxSteps, configured))
    ensures var t := Play(run, events, configured);
            && t.maxSteps == run.maxSteps && t.maxCorrections == run.maxCorrections && t.maxOptimizations == run.maxOptimizations
            && InOrder(t, GoalTarget(run.maxSteps, configured)) && run.steps <= t.steps
  {
    if events != [] {
      hide Apply, InOrder;
      LedgerHasNoGaps(run, events[..|events| - 1], configured);
      EventKeepsOrder(Play(run, events[..|events| - 1], configured), events[|events| - 1], configured);
    }
  }

  lemma CreatedInOrder(maxSteps: Option<int>, maxCorrections: Option<int>, maxOptimizations: Option<int>,
                       configured: Option<int>)
    ensures var run := CreateRun(maxSteps, maxCorrections, maxOptimizations);
            run.maxSteps >= 1 && InOrder(run, GoalTarget(run.maxSteps, configured))
  {
  }

  // ---- status changes are edges ------------------------------------------------------------------------

  ghost predicate AlongEdges(from: Status, trail: seq<Status>) {
    var chain := [from] + trail;
    forall i :: 0 <= i < |trail| ==> Edge(chain[i], chain[i + 1])
  }

  /** The switch to `optimizing`, which the source writes without asking the graph, is an edge only from `running`. */
  lemma SwitchIsAnEdgeFromRunning(run: Run, configured: Option<int>, expected: Option<nat>)
    requires Tick(run, configured, expected).outcome == Processed
    ensures var r := Started(run);
            var switches := Switched(Stepped(r), configured).phase != r.phase;
            AlongEdges(run.status, Trail(run, configured, expected)) <==> !switches || r.status == Running
  {
    hide GoalTarget, CheckInvariants;
    var r := Started(run);
    var chain := [run.status] + Trail(run, configured, expected);
    var k := if run.status == Queued then 1 else 0;
    assert chain[k] == r.status && Edge(r.status, Optimizing) <==> r.status == Running;
    if Switched(Stepped(r), configured).phase != r.phase {
      assert chain[k + 1] == Optimizing;
      assert k == 1 ==> chain[1] == Running;
    }
  }

  /** In a run that was only ever ticked, cancelled and resumed, every status change is an edge of the graph. */
  lemma StatusesFollowTheGraph(run: Run, e: Event, configured: Option<int>)
    requires run.maxSteps >= 1 && InOrder(run, GoalTarget(run.maxSteps, configured))
    ensures e.TickEvent? ==> AlongEdges(run.status, Trail(run, configured, e.expected)) && Tick(run, configured, e.expected).outcome != Threw
    ensures !e.TickEvent? && Apply(run, e, configured) != run ==> Edge(run.status, Apply(run, e, configured).status)
  {
    hide Listed, GoalTarget;
    match e {
      case TickEvent(expected) =>
        TickKeepsCounts(run, configured, expected);
        if Tick(run, configured, expected).outcome == Processed {
          SwitchIsAnEdgeFromRunning(run, configured, expected);
          GoalStepsRun(Started(run), configured);
        } else {
          SkipsAlongEdges(run, configured, expected);
        }
      case _ =>
    }
  }

  lemma GoalStepsRun(r: Run, configured: Option<int>)
    requires Counted(r, GoalTarget(r.maxSteps, configured)) && Runnable(r.status)
    ensures Switched(Stepped(r), configured).phase != r.phase ==> r.status == Running
  {
  }

  lemma SkipsAlongEdges(run: Run, configured: Option<int>, expected: Option<nat>)
    requires Tick(run, configured, expected).outcome == Skipped
    ensures AlongEdges(run.status, Trail(run, configured, expected))
  {
    hide GoalTarget, Switched, Stepped, Exhausted;
  }

  /** A run marked `correcting` at its last goal step is switched along an edge the graph does not have. */
  lemma CorrectingRunLeavesTheGraph()
    ensures var run := Run(GoalPhase, Correcting, 4, 0, 0, 20, 2, 2, [Step(0, GoalPhase), Step(1, GoalPhase), Step(2, GoalPhase), Step(3, GoalPhase)]);
            && Tick(run, None, None).run.status == Optimizing
            && !AlongEdges(run.status, Trail(run, None, None))
  {
    var run := Run(GoalPhase, Correcting, 4, 0, 0, 20, 2, 2, [Step(0, GoalPhase), Step(1, GoalPhase), Step(2, GoalPhase), Step(3, GoalPhase)]);
    var chain := [run.status] + Trail(run, None, None);
    assert chain[0] == Correcting && chain[0 + 1] == Optimizing;
    assert !Edge(Correcting, Optimizing);
  }

  // ---- ticked to the end ----------------------------------------------------------------------------------

  function Ticks(run: Run, n: nat, configured: Option<int>): Run {
    if n == 0 then run else Tick(Ticks(run, n - 1, configured), configured, None).run
  }

  /** How many steps a run takes when nobody interferes. */
  function LastStep(run: Run, target: nat): nat {
    if target + run.maxOptimizations <= run.maxSteps then target + run.maxOptimizations else run.maxSteps
  }

  /** A run on its way is active until its last step, which completes it if there is room for every optimization;
    * otherwise it is still active there, and fails on the next tick. */
  predicate OnItsWay(t: Run, n: nat, target: nat) {
    var last := LastStep(t, target);
    && Counted(t, target) && t.maxSteps >= 1 && t.maxCorrections >= 1
    && t.stepIndex == (if n <= last then n else last)
    && if n < last || (n == last && target + t.maxOptimizations > t.maxSteps) then t.status == Queued || Runnable(t.status)
       else t.status == if target + t.maxOptimizations <= t.maxSteps then Complete else Failed
  }

  lemma OneMoreTick(t: Run, n: nat, configured: Option<int>)
    requires OnItsWay(t, n, GoalTarget(t.maxSteps, configured))
    ensures OnItsWay(Tick(t, configured, None).run, n + 1, GoalTarget(t.maxSteps, configured))
  {
    hide GoalTarget, Switched, Stepped, Exhausted;
    var r := Started(t);
    assert GoalTarget(t.maxSteps, configured) <= t.maxSteps;
    TickKeepsCounts(t, configured, None);
    CountsWithStatus(t, GoalTarget(t.maxSteps, configured), r.status);
    if Runnable(r.status) && CheckInvariants(r) == Continue {
      StepKeepsCounts(r, configured);
    }
  }

  lemma {:induction false} AfterTicks(run: Run, n: nat, configured: Option<int>)
    requires run.status == Queued && run.stepIndex == 0 && run.maxSteps >= 1 && run.maxCorrections >= 1
    requires InOrder(run, GoalTarget(run.maxSteps, configured))
    ensures var t := Ticks(run, n, configured);
            && t.maxSteps == run.maxSteps && t.maxCorrections == run.maxCorrections && t.maxOptimizations == run.maxOptimizations
            && OnItsWay(t, n, GoalTarget(run.maxSteps, configured)) && InOrder(t, GoalTarget(run.maxSteps, configured))
  {
    if n > 0 {
      hide Tick, Counted, Listed, GoalTarget, OnItsWay;
      AfterTicks(run, n - 1, configured);
      EventKeepsOrder(Ticks(run, n - 1, configured), TickEvent(None), configured);
      OneMoreTick(Ticks(run, n - 1, configured), n - 1, configured);
    }
  }

  /** A run that may be corrected at least once completes after target + maxOptimizations steps when that is within its step
    * limit, and otherwise fails with exactly maxSteps steps taken; from then on ticks change nothing. */
  lemma RunsOut(maxSteps: Option<int>, maxCorrections: Option<int>, maxOptimizations: Option<int>,
                configured: Option<int>, n: nat)
    requires CreateRun(maxSteps, maxCorrections, maxOptimizations).maxCorrections >= 1
    requires n > CreateRun(maxSteps, maxCorrections, maxOptimizations).maxSteps
    ensures var run := CreateRun(maxSteps, maxCorrections, maxOptimizations);
            var target := GoalTarget(run.maxSteps, configured);
            var t := Ticks(run, n, configured);
            if target + run.maxOptimizations <= run.maxSteps
            then t.status == Complete && t.stepIndex == |t.steps| == target + run.maxOptimizations
            else t.status == Failed && t.stepIndex == |t.steps| == run.maxSteps
  {
    hide Ticks;
    CreatedInOrder(maxSteps, maxCorrections, maxOptimizations, configured);
    AfterTicks(CreateRun(maxSteps, maxCorrections, maxOptimizations), n, configured);
  }

  /** A run that may not be corrected at all fails on its first tick, before any step. */
  lemma NoCorrectionsAllowedFailsAtOnce(maxSteps: Option<int>, maxOptimizations: Option<int>, configured: Option<int>)
    ensures var t := Tick(CreateRun(maxSteps, Some(0), maxOptimizations), configured, None);
            t.run.status == Failed && t.run.steps == [] && !t.reenqueue
  {
  }

  // ---- what a tick costs -------------------------------------------------------------------------------------

  /** How many ticks a run can still ask for. */
  function TicksLeft(run: Run): nat {
    (if run.stepIndex < run.maxSteps then run.maxSteps - run.stepIndex else 0) + 1
  }

  predicate Wants(run: Run, configured: Option<int>) {
    Tick(run, configured, None).reenqueue
  }

  /** A run in any state asks for another tick only after moving one step on, and once it stops asking it never asks again. */
  lemma TickSpends(run: Run, configured: Option<int>)
    ensures var t := Tick(run, configured, None);
            && (t.reenqueue ==> TicksLeft(t.run) + 1 == TicksLeft(run))
            && (!t.reenqueue ==> !Wants(t.run, configured))
  {
  }
}
