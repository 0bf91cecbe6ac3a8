/** Whole executions of the step loop: what is recorded, when it ends, and what `complete` means. */
module KernelExecution {
  import opened Wrappers
  import opened ValidationModes
  import opened KernelLoop

  datatype RunStatus = Running | Correcting | Optimizing | Complete | Failed

  datatype Run = Run(status: RunStatus, index: nat, plan: seq<Step>, rolledBack: bool)

  function InitialCounters(plan: seq<Step>): Counters {
    Counters(CountPrefix(plan, RuntimeCorrectionId), CountPrefix(plan, ValidationCorrectionId), None, None)
  }

  function Left(limit: nat, used: nat): nat {
    if used < limit then limit - used else 0
  }

  /** How many more steps can be executed: two for every runtime correction left, one for every heavy one. */
  function Budget(cfg: Config, plan: seq<Step>, index: nat, c: Counters): (b: nat)
    ensures |plan| - index <= b
  {
    (if index < |plan| then |plan| - index else 0) + 2 * Left(cfg.maxRuntime, c.runtimeCount) + Left(cfg.maxHeavy, c.heavyCount)
  }

  lemma BudgetSpends(cfg: Config, plan: seq<Step>, grown: seq<Step>, index: nat, c: Counters, d: Counters)
    requires index < |plan|
    requires || (|grown| == |plan| && d.runtimeCount == c.runtimeCount && d.heavyCount == c.heavyCount)
             || (|grown| == |plan| + 1 && d.runtimeCount == c.runtimeCount && d.heavyCount == c.heavyCount + 1 && c.heavyCount < cfg.maxHeavy)
             || (|grown| == |plan| + 2 && d.runtimeCount == c.runtimeCount + 1 && d.heavyCount == c.heavyCount && c.runtimeCount < cfg.maxRuntime)
    ensures Budget(cfg, grown, index + 1, d) + 1 == Budget(cfg, plan, index, c)
  {
  }

  function CountersAfter(cfg: Config, first: Counters, records: seq<Record>): Counters {
    if records == [] then first else NextCounters(cfg, records[|records| - 1])
  }

  /** Record k is what the checks make of step start + k of the plan, with the counters the records before it leave. */
  ghost predicate Ledger(cfg: Config, oracle: nat -> World, start: nat, first: Counters, records: seq<Record>,
                         plan: seq<Step>) {
    && start + |records| <= |plan|
    && (forall k :: 0 <= k < |records| ==>
          records[k] == Observed(cfg, CountersAfter(cfg, first, records[..k]), start + k, plan[start + k], oracle(k), records[k].last))
  }

  /** What a record has inserted after its step. */
  function Added(cfg: Config, r: Record): seq<Step> {
    match Decide(cfg, r)
    case QueueHeavy => if r.world.planned.Planned? then [HeavyCorrectionStep(r.world.planned)] else []
    case QueueRuntime =>
      if r.world.planned.Planned? then [RuntimeCorrectionStep(r.world.planned), RetryStep(r.step)] else []
    case _ => []
  }

  /** The plan as it is once those records have been made. */
  function PlanAfter(cfg: Config, start: nat, plan: seq<Step>, records: seq<Record>): seq<Step> {
    if records == [] then plan
    else
      var before := PlanAfter(cfg, start, plan, records[..|records| - 1]);
      if start + |records| > |before| then before
      else Insert(before, start + |records|, Added(cfg, records[|records| - 1]))
  }

  ghost predicate UnfoldsAt(cfg: Config, oracle: nat -> World, start: nat, plan: seq<Step>, records: seq<Record>, k: nat)
    requires k < |records|
  {
    var now := PlanAfter(cfg, start, plan, records[..k]);
    && start + k < |now|
    && records[k] == Observed(cfg, CountersAfter(cfg, InitialCounters(plan), records[..k]), start + k, now[start + k], oracle(k),
                              start + k + 1 >= |now|)
  }

  /** Every record follows from the plan at the start, the outside and the records before it. */
  ghost predicate Unfolds(cfg: Config, oracle: nat -> World, start: nat, plan: seq<Step>, records: seq<Record>) {
    forall k :: 0 <= k < |records| ==> UnfoldsAt(cfg, oracle, start, plan, records, k)
  }

  lemma PlanMoves(cfg: Config, start: nat, plan: seq<Step>, records: seq<Record>, r: Record)
    requires start + |records| < |PlanAfter(cfg, start, plan, records)|
    ensures PlanAfter(cfg, start, plan, records + [r]) ==
              Insert(PlanAfter(cfg, start, plan, records), start + |records| + 1, Added(cfg, r))
  {
    hide Added, Insert;
    assert (records + [r])[..|records|] == records;
  }

  lemma UnfoldGrows(cfg: Config, oracle: nat -> World, start: nat, plan: seq<Step>, records: seq<Record>, r: Record)
    requires Unfolds(cfg, oracle, start, plan, records)
    requires var now := PlanAfter(cfg, start, plan, records);
             && start + |records| < |now|
             && r == Observed(cfg, CountersAfter(cfg, InitialCounters(plan), records), start + |records|, now[start + |records|],
                              oracle(|records|), start + |records| + 1 >= |now|)
    ensures Unfolds(cfg, oracle, start, plan, records + [r])
    ensures PlanAfter(cfg, start, plan, records + [r]) ==
              Insert(PlanAfter(cfg, start, plan, records), start + |records| + 1, Added(cfg, r))
  {
    hide Observed, CountersAfter, InitialCounters, Added, PlanAfter, Insert, UnfoldsAt;
    PlanMoves(cfg, start, plan, records, r);
    forall k | 0 <= k < |records| + 1
      ensures UnfoldsAt(cfg, oracle, start, plan, records + [r], k)
    {
      if k < |records| { StillUnfolds(cfg, oracle, start, plan, records, r, k); } else { LastUnfolds(cfg, oracle, start, plan, records, r); }
    }
  }

  lemma StillUnfolds(cfg: Config, oracle: nat -> World, start: nat, plan: seq<Step>, records: seq<Record>, r: Record, k: nat)
    requires k < |records| && UnfoldsAt(cfg, oracle, start, plan, records, k)
    ensures UnfoldsAt(cfg, oracle, start, plan, records + [r], k)
  {
    hide Observed, CountersAfter, InitialCounters, PlanAfter;
    assert (records + [r])[..k] == records[..k];
  }

  lemma LastUnfolds(cfg: Config, oracle: nat -> World, start: nat, plan: seq<Step>, records: seq<Record>, r: Record)
    requires var now := PlanAfter(cfg, start, plan, records);
             && start + |records| < |now|
             && r == Observed(cfg, CountersAfter(cfg, InitialCounters(plan), records), start + |records|, now[start + |records|],
                              oracle(|records|), start + |records| + 1 >= |now|)
    ensures UnfoldsAt(cfg, oracle, start, plan, records + [r], |records|)
  {
    hide Observed, CountersAfter, InitialCounters, PlanAfter;
    assert (records + [r])[..|records|] == records;
  }

  lemma NothingAdded(plan: seq<Step>, index: nat)
    requires index <= |plan|
    ensures Insert(plan, index, []) == plan
  {
  }

  lemma AddsNothing(cfg: Config, r: Record)
    requires Decide(cfg, r).Advance? || Decide(cfg, r).StopFailed? || r.world.planned.PlannerThrows?
    ensures Added(cfg, r) == []
  {
    hide Decide;
  }

  ghost predicate RetryAhead(plan: seq<Step>, index: nat, failed: Step) {
    exists m :: index < m < |plan| && plan[m] == RetryStep(failed)
  }

  /** What the plan holds after a step that did not stop the run. */
  ghost predicate FollowedUp(cfg: Config, oracle: nat -> World, start: nat, records: seq<Record>, plan: seq<Step>, k: nat)
    requires k < |records|
  {
    var next := start + k + 1;
    match Decide(cfg, records[k])
    case QueueHeavy =>
      oracle(k).planned.Planned? && next < |plan| && plan[next] == HeavyCorrectionStep(oracle(k).planned)
    case QueueRuntime =>
      oracle(k).planned.Planned? && next < |plan| && plan[next] == RuntimeCorrectionStep(oracle(k).planned)
      && RetryAhead(plan, next, records[k].step)
    case Advance => next <= |plan| && (records[k].last <==> next == |plan|)
    case StopFailed => false
  }

  /** Inserting after the step at hand leaves the records and their follow-ups as they were. */
  lemma InsertKeeps(cfg: Config, oracle: nat -> World, start: nat, first: Counters, records: seq<Record>,
                    plan: seq<Step>, steps: seq<Step>)
    requires Ledger(cfg, oracle, start, first, records, plan) && records != []
    requires forall k :: 0 <= k < |records| - 1 ==> FollowedUp(cfg, oracle, start, records, plan, k)
    requires steps != []
    ensures var grown := Insert(plan, start + |records|, steps);
            && Ledger(cfg, oracle, start, first, records, grown)
            && (forall k :: 0 <= k < |records| - 1 ==> FollowedUp(cfg, oracle, start, records, grown, k))
  {
    hide Observed, Decide, RetryStep, RuntimeCorrectionStep, HeavyCorrectionStep, CountersAfter;
    var at := start + |records|;
    var grown := Insert(plan, at, steps);
    assert forall i :: 0 <= i < at ==> grown[i] == plan[i];
    assert forall i :: at <= i < |plan| ==> grown[i + |steps|] == plan[i];
    forall k | 0 <= k < |records| - 1
      ensures FollowedUp(cfg, oracle, start, records, grown, k)
    {
      assert FollowedUp(cfg, oracle, start, records, plan, k);
      if Decide(cfg, records[k]).QueueRuntime? {
        var m :| start + k + 1 < m < |plan| && plan[m] == RetryStep(records[k].step);
        var moved := if m < at then m else m + |steps|;
        assert grown[moved] == RetryStep(records[k].step);
      }
    }
  }

  lemma LedgerGrows(cfg: Config, oracle: nat -> World, start: nat, first: Counters, records: seq<Record>,
                    plan: seq<Step>, r: Record)
    requires Ledger(cfg, oracle, start, first, records, plan) && start + |records| < |plan|
    requires forall k :: 0 <= k < |records| ==> FollowedUp(cfg, oracle, start, records, plan, k)
    requires r == Observed(cfg, CountersAfter(cfg, first, records), start + |records|, plan[start + |records|], oracle(|records|), r.last)
    ensures var grown := records + [r];
            && Ledger(cfg, oracle, start, first, grown, plan)
            && (forall k :: 0 <= k < |records| ==> FollowedUp(cfg, oracle, start, grown, plan, k))
  {
    hide Observed, Decide, CountersAfter, RetryAhead;
    var grown := records + [r];
    assert grown[..|records|] == records;
    forall k | 0 <= k < |records|
      ensures grown[..k] == records[..k]
      ensures FollowedUp(cfg, oracle, start, grown, plan, k)
    {
      assert FollowedUp(cfg, oracle, start, records, plan, k);
    }
  }

  /** Whether the execution has run out of steps with everything in order. */
  ghost predicate Finishes(cfg: Config, prior: seq<Record>, records: seq<Record>, start: nat, plan: seq<Step>) {
    && records != [] && start + |records| == |plan|
    && records[|records| - 1].last && Decide(cfg, records[|records| - 1]).Advance?
    && Delivered(cfg, prior + records)
  }

  /** The status an execution ends with, and why. */
  ghost predicate Ended(cfg: Config, oracle: nat -> World, start: nat, prior: seq<Record>, records: seq<Record>, run: Run) {
    if start >= |run.plan| then
      records == [] && run == Run(Running, start, run.plan, false)
    else
      && records != [] && (run.status == Complete || run.status == Failed)
      && (run.status == Complete <==> Finishes(cfg, prior, records, start, run.plan))
      && run.index == start + |records| - (if run.status == Complete then 0 else 1)
      && var n := |records| - 1;
         && (forall k :: 0 <= k < n ==> FollowedUp(cfg, oracle, start, records, run.plan, k))
         && (run.status == Failed ==>
               match Decide(cfg, records[n])
               case StopFailed => true
               case Advance => start + |records| == |run.plan| && !Delivered(cfg, prior + records)
               case _ => oracle(n).planned.PlannerThrows?)
         && (run.rolledBack <==> Decide(cfg, records[n]).StopFailed? && RollsBack(cfg, records[n]))
  }

  /** The loop at the top of an iteration: `origin` is the plan it began with. */
  ghost predicate Going(cfg: Config, oracle: nat -> World, start: nat, origin: seq<Step>, records: seq<Record>,
                        plan: seq<Step>, c: Counters) {
    && Ledger(cfg, oracle, start, InitialCounters(origin), records, plan)
    && c == CountersAfter(cfg, InitialCounters(origin), records)
    && Unfolds(cfg, oracle, start, origin, records) && plan == PlanAfter(cfg, start, origin, records)
    && forall k :: 0 <= k < |records| ==> FollowedUp(cfg, oracle, start, records, plan, k)
  }

  /** An iteration that has recorded its step but not yet decided. */
  ghost predicate Judged(cfg: Config, oracle: nat -> World, start: nat, origin: seq<Step>, records: seq<Record>,
                         plan: seq<Step>) {
    && records != [] && Ledger(cfg, oracle, start, InitialCounters(origin), records, plan)
    && (records[|records| - 1].last <==> start + |records| == |plan|)
    && Unfolds(cfg, oracle, start, origin, records)
    && PlanAfter(cfg, start, origin, records) == Insert(plan, start + |records|, Added(cfg, records[|records| - 1]))
    && forall k :: 0 <= k < |records| - 1 ==> FollowedUp(cfg, oracle, start, records, plan, k)
  }

  lemma Judges(cfg: Config, oracle: nat -> World, start: nat, origin: seq<Step>, records: seq<Record>, plan: seq<Step>,
               c: Counters, r: Record)
    requires Going(cfg, oracle, start, origin, records, plan, c) && start + |records| < |plan|
    requires r == Observed(cfg, c, start + |records|, plan[start + |records|], oracle(|records|), start + |records| + 1 >= |plan|)
    ensures Judged(cfg, oracle, start, origin, records + [r], plan)
  {
    hide Unfolds, PlanAfter, Added, FollowedUp, Ledger, CountersAfter, InitialCounters, Insert;
    LedgerGrows(cfg, oracle, start, InitialCounters(origin), records, plan, r);
    UnfoldGrows(cfg, oracle, start, origin, records, r);
  }

  lemma RecordsWorld(cfg: Config, oracle: nat -> World, start: nat, origin: seq<Step>, records: seq<Record>, plan: seq<Step>)
    requires Judged(cfg, oracle, start, origin, records, plan)
    ensures records[|records| - 1].world == oracle(|records| - 1)
    ensures records[|records| - 1].step == plan[start + |records| - 1]
  {
    hide Decide, CountersAfter, InitialCounters, PlanAfter, FollowedUp, Added;
  }

  lemma HeavyGoesOn(cfg: Config, oracle: nat -> World, start: nat, origin: seq<Step>, records: seq<Record>,
                    plan: seq<Step>, planned: Planned)
    requires Judged(cfg, oracle, start, origin, records, plan) && planned == oracle(|records| - 1).planned
    requires Decide(cfg, records[|records| - 1]).QueueHeavy? && planned.Planned?
    ensures Going(cfg, oracle, start, origin, records, Insert(plan, start + |records|, [HeavyCorrectionStep(planned)]),
                  NextCounters(cfg, records[|records| - 1]))
  {
    RecordsWorld(cfg, oracle, start, origin, records, plan);
    hide Decide, RetryStep, NextCounters, RuntimeCorrectionStep, Ledger, PlanAfter, Unfolds, InitialCounters;
    assert start + |records| <= |plan| by { LedgerFits(cfg, oracle, start, InitialCounters(origin), records, plan); }
    InsertKeeps(cfg, oracle, start, InitialCounters(origin), records, plan, [HeavyCorrectionStep(planned)]);
  }

  lemma RuntimeGoesOn(cfg: Config, oracle: nat -> World, start: nat, origin: seq<Step>, records: seq<Record>,
                      plan: seq<Step>, planned: Planned, failed: Step)
    requires Judged(cfg, oracle, start, origin, records, plan) && planned == oracle(|records| - 1).planned
    requires Decide(cfg, records[|records| - 1]).QueueRuntime? && planned.Planned? && failed == records[|records| - 1].step
    ensures Going(cfg, oracle, start, origin, records, Insert(plan, start + |records|, [RuntimeCorrectionStep(planned), RetryStep(failed)]),
                  NextCounters(cfg, records[|records| - 1]))
  {
    RecordsWorld(cfg, oracle, start, origin, records, plan);
    hide Decide, RetryStep, NextCounters, RuntimeCorrectionStep, Ledger, PlanAfter, Unfolds, InitialCounters;
    assert start + |records| <= |plan| by { LedgerFits(cfg, oracle, start, InitialCounters(origin), records, plan); }
    var added := [RuntimeCorrectionStep(planned), RetryStep(failed)];
    var grown := Insert(plan, start + |records|, added);
    InsertKeeps(cfg, oracle, start, InitialCounters(origin), records, plan, added);
    assert grown[start + |records|] == added[0] && grown[start + |records| + 1] == added[1];
  }

  lemma LedgerFits(cfg: Config, oracle: nat -> World, start: nat, first: Counters, records: seq<Record>, plan: seq<Step>)
    requires Ledger(cfg, oracle, start, first, records, plan)
    ensures start + |records| <= |plan|
  {
  }

  lemma Begins(cfg: Config, oracle: nat -> World, start: nat, plan: seq<Step>)
    ensures Unfolds(cfg, oracle, start, plan, []) && PlanAfter(cfg, start, plan, []) == plan
    ensures start <= |plan| ==> Going(cfg, oracle, start, plan, [], plan, InitialCounters(plan))
  {
  }

  lemma CountersMove(cfg: Config, r: Record, signature: Option<nat>, blocking: Option<nat>)
    requires signature == NextSignature(r.at, r.step, r.world)
    requires blocking == NextBlocking(r.at, HeavyRun(cfg, r.step, r.world, r.last))
    ensures var c := Counters(r.at.runtimeCount, r.at.heavyCount, signature, blocking);
            NextCounters(cfg, r) == match Decide(cfg, r)
              case QueueHeavy => c.(heavyCount := c.heavyCount + 1)
              case QueueRuntime => c.(runtimeCount := c.runtimeCount + 1)
              case _ => c
    ensures QueuesHeavy(cfg, r) ==> r.at.heavyCount < cfg.maxHeavy
  {
    hide MessageMentions, NextSignature, RuntimeVerify;
  }

  /** A record that queues nothing leaves the plan as it is. */
  lemma PlanStays(cfg: Config, oracle: nat -> World, start: nat, origin: seq<Step>, records: seq<Record>, plan: seq<Step>)
    requires Judged(cfg, oracle, start, origin, records, plan)
    requires var r := records[|records| - 1];
             Decide(cfg, r).Advance? || Decide(cfg, r).StopFailed? || oracle(|records| - 1).planned.PlannerThrows?
    ensures Unfolds(cfg, oracle, start, origin, records) && plan == PlanAfter(cfg, start, origin, records)
  {
    RecordsWorld(cfg, oracle, start, origin, records, plan);
    hide Decide, Unfolds, PlanAfter, InitialCounters, Added, Insert, FollowedUp;
    LedgerFits(cfg, oracle, start, InitialCounters(origin), records, plan);
    hide Ledger;
    AddsNothing(cfg, records[|records| - 1]);
    NothingAdded(plan, start + |records|);
  }

  lemma AdvanceGoesOn(cfg: Config, oracle: nat -> World, start: nat, origin: seq<Step>, records: seq<Record>, plan: seq<Step>)
    requires Judged(cfg, oracle, start, origin, records, plan)
    requires Decide(cfg, records[|records| - 1]).Advance?
    ensures Going(cfg, oracle, start, origin, records, plan, NextCounters(cfg, records[|records| - 1]))
  {
    PlanStays(cfg, oracle, start, origin, records, plan);
    hide Decide, RetryStep, NextCounters, RuntimeCorrectionStep, Unfolds, PlanAfter, InitialCounters, Insert;
  }

  lemma GoingHasLedger(cfg: Config, oracle: nat -> World, start: nat, origin: seq<Step>, records: seq<Record>,
                       plan: seq<Step>, c: Counters)
    requires Going(cfg, oracle, start, origin, records, plan, c)
    ensures Ledger(cfg, oracle, start, InitialCounters(origin), records, plan)
    ensures Unfolds(cfg, oracle, start, origin, records) && plan == PlanAfter(cfg, start, origin, records)
  {
  }

  lemma GoingFollows(cfg: Config, oracle: nat -> World, start: nat, origin: seq<Step>, records: seq<Record>, plan: seq<Step>,
                     c: Counters)
    requires Going(cfg, oracle, start, origin, records, plan, c)
    ensures forall k :: 0 <= k < |records| ==> FollowedUp(cfg, oracle, start, records, plan, k)
  {
    hide FollowedUp;
  }

  lemma EndsFailed(cfg: Config, oracle: nat -> World, start: nat, prior: seq<Record>, origin: seq<Step>,
                     records: seq<Record>, run: Run)
    requires Judged(cfg, oracle, start, origin, records, run.plan)
    requires run.status == Failed && run.index == start + |records| - 1
    requires match Decide(cfg, records[|records| - 1])
             case StopFailed => run.rolledBack == RollsBack(cfg, records[|records| - 1])
             case Advance => start + |records| == |run.plan| && !Delivered(cfg, prior + records) && !run.rolledBack
             case _ => oracle(|records| - 1).planned.PlannerThrows? && !run.rolledBack
    ensures Ledger(cfg, oracle, start, InitialCounters(origin), records, run.plan)
    ensures Unfolds(cfg, oracle, start, origin, records) && run.plan == PlanAfter(cfg, start, origin, records)
    ensures Ended(cfg, oracle, start, prior, records, run)
  {
    hide Decide, RetryAhead, Observed, RollsBack, Delivered, Unfolds, PlanAfter, InitialCounters, Insert;
    PlanStays(cfg, oracle, start, origin, records, run.plan);
    assert start < |run.plan|;
  }

  lemma EndsComplete(cfg: Config, oracle: nat -> World, start: nat, prior: seq<Record>, origin: seq<Step>,
                     records: seq<Record>, run: Run)
    requires Judged(cfg, oracle, start, origin, records, run.plan)
    requires run.status == Complete && run.index == start + |records| == |run.plan| && !run.rolledBack
    requires Decide(cfg, records[|records| - 1]).Advance? && Delivered(cfg, prior + records)
    ensures Ended(cfg, oracle, start, prior, records, run)
  {
    hide Decide, RetryAhead, Observed, RollsBack, Delivered, Unfolds, PlanAfter, InitialCounters, Insert;
  }

  lemma EndsUnstarted(cfg: Config, oracle: nat -> World, start: nat, prior: seq<Record>, plan: seq<Step>)
    requires start >= |plan|
    ensures Ended(cfg, oracle, start, prior, [], Run(Running, start, plan, false))
  {
  }

  /** `records` are the steps this execution adds. `threw` is the error of a lost lock; the run is then as the store has it. */
  method ExecuteLoop(cfg: Config, plan: seq<Step>, start: nat, prior: seq<Record>, oracle: nat -> World)
    returns (run: Run, steps: seq<Record>, threw: bool, ghost records: seq<Record>)
    ensures steps == prior + records
    ensures start <= |plan| ==> Ledger(cfg, oracle, start, InitialCounters(plan), records, run.plan)
    ensures |records| <= Budget(cfg, plan, start, InitialCounters(plan))
    ensures start <= |plan| ==> |run.plan| - start <= Budget(cfg, plan, start, InitialCounters(plan))
    ensures Unfolds(cfg, oracle, start, plan, records) && run.plan == PlanAfter(cfg, start, plan, records)
    ensures threw ==>
      && !oracle(|records|).lockHeld && start + |records| < |run.plan|
      && forall k :: 0 <= k < |records| ==> FollowedUp(cfg, oracle, start, records, run.plan, k)
    ensures !threw ==> Ended(cfg, oracle, start, prior, records, run)
  {
    hide NextCounters, Observed, Ledger, RollsBack, Delivered, CountPrefix, FollowedUp, Going, Judged, NextSignature, NextBlocking,
      QueuesHeavy, MessageMentions, RuntimeVerify, InitialCounters, Insert, Ended, CountersAfter, RetryStep, Budget,
      PlanAfter, Added, Unfolds;
    ghost var first := InitialCounters(plan);
    var c := InitialCounters(plan);
    run, steps, threw, records := Run(Running, start, plan, false), prior, false, [];
    var stepIndex := start;
    Begins(cfg, oracle, start, plan);
    if start >= |plan| { EndsUnstarted(cfg, oracle, start, prior, plan); }
    assert prior + [] == prior;
    while stepIndex < |run.plan|
      invariant stepIndex == start + |records| && steps == prior + records
      invariant start >= |plan| ==> records == [] && run == Run(Running, start, plan, false)
      invariant start <= |plan| ==> Going(cfg, oracle, start, plan, records, run.plan, c)
      invariant |records| + Budget(cfg, run.plan, stepIndex, c) == Budget(cfg, plan, start, first)
      invariant start < |plan| ==> stepIndex <= |run.plan| && !run.rolledBack
      invariant stepIndex >= |run.plan| ==> Ended(cfg, oracle, start, prior, records, run)
      decreases Budget(cfg, run.plan, stepIndex, c)
    {
      GoingHasLedger(cfg, oracle, start, plan, records, run.plan, c);
      var step := run.plan[stepIndex];
      var w := oracle(|steps| - |prior|);
      if !w.lockHeld {
        GoingFollows(cfg, oracle, start, plan, records, run.plan, c);
        threw := true;
        return;
      }
      var last := stepIndex + 1 >= |run.plan|;
      var r, mentions, queueHeavy, rollback, signature, blocking := RunChecks(cfg, c, stepIndex, step, w, last);
      CountersMove(cfg, r, signature, blocking);
      Judges(cfg, oracle, start, plan, records, run.plan, c, r);
      assert prior + (records + [r]) == steps + [r];
      steps, records := steps + [r], records + [r];

      if queueHeavy {
        if w.planned.PlannerThrows? {
          run := run.(status := Failed, index := stepIndex);
          EndsFailed(cfg, oracle, start, prior, plan, records, run);
          return;
        }
        HeavyGoesOn(cfg, oracle, start, plan, records, run.plan, w.planned);
        var grown := Insert(run.plan, stepIndex + 1, [HeavyCorrectionStep(w.planned)]);
        var counted := Counters(c.runtimeCount, c.heavyCount + 1, signature, blocking);
        BudgetSpends(cfg, run.plan, grown, stepIndex, c, counted);
        run := run.(status := Optimizing, index := stepIndex + 1, plan := grown);
        c := counted;
        stepIndex := stepIndex + 1;
        continue;
      }

      if !r.completed && (RuntimeVerify(step) || mentions) && c.runtimeCount < cfg.maxRuntime {
        if w.planned.PlannerThrows? {
          run := run.(status := Failed, index := stepIndex);
          EndsFailed(cfg, oracle, start, prior, plan, records, run);
          return;
        }
        RuntimeGoesOn(cfg, oracle, start, plan, records, run.plan, w.planned, step);
        var grown := Insert(run.plan, stepIndex + 1, [RuntimeCorrectionStep(w.planned), RetryStep(step)]);
        var counted := Counters(c.runtimeCount + 1, c.heavyCount, signature, blocking);
        BudgetSpends(cfg, run.plan, grown, stepIndex, c, counted);
        run := run.(status := Correcting, index := stepIndex + 1, plan := grown);
        c := counted;
        stepIndex := stepIndex + 1;
        continue;
      }

      if !r.completed {
        if !rollback && RuntimeVerify(step) && c.runtimeCount >= cfg.maxRuntime { rollback := true; }
        run := run.(status := Failed, index := stepIndex, rolledBack := rollback);
        EndsFailed(cfg, oracle, start, prior, plan, records, run);
        return;
      }

      var done := stepIndex + 1 >= |run.plan|;
      if done && !Delivered(cfg, steps) {
        run := run.(status := Failed, index := stepIndex);
        EndsFailed(cfg, oracle, start, prior, plan, records, run);
        return;
      }
      AdvanceGoesOn(cfg, oracle, start, plan, records, run.plan);
      run := run.(status := if done then Complete else Running, index := stepIndex + 1);
      if done { EndsComplete(cfg, oracle, start, prior, plan, records, run); }
      var counted := Counters(c.runtimeCount, c.heavyCount, signature, blocking);
      BudgetSpends(cfg, run.plan, run.plan, stepIndex, c, counted);
      c := counted;
      stepIndex := stepIndex + 1;
    }
    if start <= |plan| { GoingHasLedger(cfg, oracle, start, plan, records, run.plan, c); }
  }

  // ---- what `complete` means -----------------------------------------------------------------------

  /** A finished execution ran every planned step once, in order; every failed step was answered by a correction queued right
    * after it, and a failed runtime check or tool input was tried again; nothing blocking is left at the end. */
  lemma CompleteIsSound(cfg: Config, oracle: nat -> World, start: nat, prior: seq<Record>, first: Counters,
                        records: seq<Record>, run: Run)
    requires Ledger(cfg, oracle, start, first, records, run.plan) && start < |run.plan|
    requires Ended(cfg, oracle, start, prior, records, run) && run.status == Complete
    ensures start + |records| == |run.plan| == run.index && !run.rolledBack
    ensures forall k :: 0 <= k < |records| ==> records[k].index == start + k && records[k].step == run.plan[start + k]
    ensures forall k :: 0 <= k < |records| && !records[k].completed ==> k + 1 < |records| && IsCorrection(records[k + 1].step)
    ensures forall k :: 0 <= k < |records| && Decide(cfg, records[k]).QueueRuntime? ==>
      exists j :: k + 1 < j < |records| && records[j].step == RetryStep(records[k].step)
    ensures forall k :: 0 <= k < |records| && records[k].completed ==>
      Passed(records[k].step, oracle(k)) && PolicyAllows(cfg, records[k].step, oracle(k))
    ensures var n := |records| - 1;
            && n >= 0 && records[n].completed
            && (cfg.heavyMode != Off ==> oracle(n).heavy == HeavyOk)
    ensures Delivered(cfg, prior + records)
  {
    hide Delivered, MessageMentions, RollsBack, CountersAfter;
    var n := |records| - 1;
    forall k | 0 <= k < |records| && !records[k].completed
      ensures k + 1 < |records| && IsCorrection(records[k + 1].step)
    {
      assert FollowedUp(cfg, oracle, start, records, run.plan, k);
    }
    forall k | 0 <= k < |records| && Decide(cfg, records[k]).QueueRuntime?
      ensures exists j :: k + 1 < j < |records| && records[j].step == RetryStep(records[k].step)
    {
      assert FollowedUp(cfg, oracle, start, records, run.plan, k);
      var m :| start + k + 1 < m < |run.plan| && run.plan[m] == RetryStep(records[k].step);
      assert records[m - start].step == RetryStep(records[k].step);
    }
  }

  /** The convergence guards stop a run only where no runtime correction is left to be queued: a repeated runtime failure is
    * corrected again below the limit, and so is a regressed heavy validation whose last step is a runtime check. */
  lemma WhenConvergenceStops(cfg: Config, at: Counters, index: nat, step: Step, w: World, last: bool)
    ensures var r := Observed(cfg, at, index, step, w, last);
            Unconverged(cfg, at, step, w) ==> (Decide(cfg, r).StopFailed? <==> at.runtimeCount >= cfg.maxRuntime)
    ensures var r := Observed(cfg, at, index, step, w, last);
            var heavy := HeavyRun(cfg, step, w, last);
            heavy.Some? && heavy.value.HeavyFailed? && Regressed(cfg, at, heavy.value.blocking) ==>
              (Decide(cfg, r).StopFailed? <==> !RuntimeVerify(step) || at.runtimeCount >= cfg.maxRuntime)
  {
  }

  /** A correction that breaks the policy is passed over exactly when heavy validation fails on the same step, which is the last,
    * without regression and with a correction left, or when a runtime correction is queued for it. */
  lemma WhenPolicyStops(cfg: Config, at: Counters, index: nat, step: Step, w: World, last: bool)
    requires Passed(step, w) && !PolicyAllows(cfg, step, w)
    ensures var r := Observed(cfg, at, index, step, w, last);
            var passedOver := && last && cfg.heavyMode != Off && w.heavy.HeavyFailed?
                              && !Regressed(cfg, at, w.heavy.blocking) && at.heavyCount < cfg.maxHeavy;
            && !r.completed
            && (Decide(cfg, r).QueueHeavy? <==> passedOver)
            && (Decide(cfg, r).StopFailed? <==>
                  !passedOver && !((RuntimeVerify(step) || MessageMentions(cfg, r)) && at.runtimeCount < cfg.maxRuntime))
  {
  }
}
