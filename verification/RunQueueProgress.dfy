/** The optimizer's sessions come to their end: no process ever waits for another one, and every step but a
    repeated cancel uses up a part of what a session can do. */
module RunQueueProgress {
  import opened Options
  import opened OptimizerRuns
  import opened OptimizerSchedule
  import opened RunQueue
  import opened RunQueueInvariant
  import opened RunQueueSafety
  import opened RunQueueTheorems

  // ---------- how much is left to do ----------

  /** The most steps a worker can still take without picking or collecting anything more. */
  function WorkerRank(worker: Worker): nat {
    match worker
    case Starting => 4
    case Looping(_, iterated) => if iterated then 6 else 3
    case Picking(_) => 2
    case Selected(_, _, _) => 9
    case Executing(_, _) => 8
    case Updating(_, _, stopping) => if stopping then 2 else 5
    case Writing(_, _, stopping) => if stopping then 1 else 4
    case Dropping => 1
    case Ended => 0
  }

  function SupervisorRank(supervisor: Supervisor): nat {
    match supervisor
    case Supervising => 3
    case Emptying(_) => 2
    case Discarding => 1
    case Closed => 0
  }

  function RankOver(workers: seq<Worker>): nat {
    if workers == [] then 0 else WorkerRank(workers[0]) + RankOver(workers[1..])
  }

  /** A waiting run takes at most eight steps: pick, start, finish, begin of an update, collect, end of
      collecting, write and check; a reported one takes the step that collects or discards it. */
  function Left(s: State): nat {
    8 * |s.start| + |s.done| + RankOver(s.workers) + SupervisorRank(s.supervisor)
  }

  lemma {:induction false} RankOverUpdate(workers: seq<Worker>, w: nat, worker: Worker)
    requires w < |workers|
    ensures RankOver(workers[w := worker]) + WorkerRank(workers[w]) == RankOver(workers) + WorkerRank(worker)
  {
    if w > 0 {
      RankOverUpdate(workers[1..], w - 1, worker);
      assert workers[w := worker][1..] == workers[1..][w - 1 := worker];
    } else {
      assert workers[w := worker][1..] == workers[1..];
    }
  }

  /** One worker's own share: its rank and what it changes in the queues. */
  lemma WorkerStepUsesUp(s: State, step: Step)
    requires IsWorkerStep(step) && step.w < |s.workers| && WorkerStep(s, step, step.w).Some?
    ensures var t := WorkerStep(s, step, step.w).value;
      |t.workers| == |s.workers| && t.supervisor == s.supervisor &&
      t.workers == s.workers[step.w := t.workers[step.w]] &&
      8 * |t.start| + |t.done| + WorkerRank(t.workers[step.w]) < 8 * |s.start| + |s.done| + WorkerRank(s.workers[step.w])
  {
  }

  lemma SupervisorStepUsesUp(s: State, step: Step)
    requires SupervisorStep(s, step).Some? && !step.Cancel?
    ensures Left(SupervisorStep(s, step).value) < Left(s)
  {
  }

  lemma StepUsesUp(s: State, step: Step)
    requires Perform(s, step).Some?
    ensures var t := Perform(s, step).value; if step.Cancel? then Left(t) == Left(s) else Left(t) < Left(s)
  {
    if IsWorkerStep(step) {
      WorkerStepUsesUp(s, step);
      RankOverUpdate(s.workers, step.w, WorkerStep(s, step, step.w).value.workers[step.w]);
    } else if !step.Cancel? {
      SupervisorStepUsesUp(s, step);
    }
  }

  /** The steps but the cancels. */
  function Working(steps: seq<Step>): nat {
    if steps == [] then 0
    else Working(steps[..|steps| - 1]) + if steps[|steps| - 1].Cancel? then 0 else 1
  }

  lemma {:induction false} BehaviourUsesUp(s: State, steps: seq<Step>)
    requires Behaviour(s, steps).Some?
    ensures Working(steps) + Left(Behaviour(s, steps).value) <= Left(s)
    decreases |steps|
  {
    var n := |steps| - 1;
    if n >= 0 {
      BehaviourUsesUp(s, steps[..n]);
      StepUsesUp(Behaviour(s, steps[..n]).value, steps[n]);
    }
  }

  lemma {:induction false} StartingRank(workers: seq<Worker>)
    requires forall w :: 0 <= w < |workers| ==> workers[w].Starting?
    ensures RankOver(workers) == 4 * |workers|
  {
    if workers != [] {
      StartingRank(workers[1..]);
    }
  }

  /** However its processes interleave, fail or are cancelled, a session has at most eight steps for each
      distinct run, four for each worker and three of the supervisor; and one for a cancel, as a second
      one changes nothing. */
  lemma SessionIsBounded(row: seq<Run>, workerCount: nat, generated: bool, steps: seq<Step>)
    requires row != [] && Behaviour(Initial(row, workerCount, generated), steps).Some?
    ensures Working(steps) + (if Cancel in steps then 1 else 0) <= 8 * |HashSet(row)| + 4 * workerCount + 4
  {
    var initial := Initial(row, workerCount, generated);
    InitialIsInvariant(row, workerCount, generated);
    StartingRank(initial.workers);
    BehaviourUsesUp(initial, steps);
  }

  // ---------- something can always be done ----------

  /** When a worker can act: only a put into a full done queue and the two ends of a drain depend on more than
      where it is. */
  predicate WorkerMay(s: State, step: Step, w: nat)
    requires w < |s.workers| && IsWorkerStep(step)
  {
    var worker := s.workers[w];
    match step
    case ReadRow(_) => worker.Starting?
    case Check(_) => worker.Looping?
    case Pick(_) => worker.Picking?
    case Start(_) => worker.Selected?
    case Finish(_, _) => worker.Executing? && |s.done| < s.capacity
    case BeginUpdate(_) => w == 0 && worker.Looping? && worker.iterated
    case Collect(_) => worker.Updating? && s.done != []
    case EndCollect(_) => worker.Updating? && s.done == []
    case Write(_) => worker.Writing?
    case Drop(_) => worker.Dropping?
    case Fail(_) => !worker.Ended?
  }

  predicate SupervisorMay(s: State, step: Step)
    requires !IsWorkerStep(step)
  {
    match step
    case Cancel => true
    case BeginCleanup => s.supervisor.Supervising? && forall w | 0 <= w < |s.workers| :: s.workers[w].Ended?
    case SupervisorCollect => s.supervisor.Emptying? && s.done != []
    case SupervisorWrite => s.supervisor.Emptying? && s.done == []
    case SupervisorFail => s.supervisor.Emptying?
    case DiscardRun => s.supervisor.Discarding? && s.start != []
    case DiscardDone => s.supervisor.Discarding? && s.done != []
    case Close => s.supervisor.Discarding? && s.start == [] && s.done == []
  }

  lemma WorkerStepsEnabled(s: State, step: Step)
    requires IsWorkerStep(step)
    ensures Perform(s, step).Some? <==> step.w < |s.workers| && WorkerMay(s, step, step.w)
  {
  }

  lemma SupervisorStepsEnabled(s: State, step: Step)
    requires !IsWorkerStep(step)
    ensures Perform(s, step).Some? <==> SupervisorMay(s, step)
  {
  }

  predicate Fails(step: Step) {
    step.Fail? || step.SupervisorFail? || (step.Finish? && step.fails)
  }

  /** What a worker that has not ended does next when nothing fails. */
  function NextOf(s: State, w: nat): Step
    requires w < |s.workers| && !s.workers[w].Ended?
  {
    match s.workers[w]
    case Starting => ReadRow(w)
    case Looping(_, _) => Check(w)
    case Picking(_) => Pick(w)
    case Selected(_, _, _) => Start(w)
    case Executing(_, _) => Finish(w, false)
    case Updating(_, _, _) => if s.done == [] then EndCollect(w) else Collect(w)
    case Writing(_, _, _) => Write(w)
    case Dropping => Drop(w)
  }

  function NextOfSupervisor(s: State): Step {
    match s.supervisor
    case Supervising => BeginCleanup
    case Emptying(_) => if s.done == [] then SupervisorWrite else SupervisorCollect
    case _ => if s.start != [] then DiscardRun else if s.done != [] then DiscardDone else Close
  }

  /** No worker ever waits for another process: until it has ended, its own next step is enabled. */
  lemma WorkerNeverWaits(row: seq<Run>, workerCount: nat, s: State, w: nat)
    requires row != [] && WellShaped(row) && Reachable(row, workerCount, s)
    requires w < |s.workers| && !s.workers[w].Ended?
    ensures Perform(s, NextOf(s, w)).Some?
  {
    if s.workers[w].Executing? {
      DoneQueueNeverBlocks(row, workerCount, s, w, false);
    }
  }

  lemma SupervisorNeverWaits(s: State)
    requires AllEnded(s.workers) && !s.supervisor.Closed?
    ensures Perform(s, NextOfSupervisor(s)).Some?
  {
  }

  /** A step that is neither a failure nor a cancel. */
  predicate IsRegular(step: Step) {
    !Fails(step) && !step.Cancel?
  }

  lemma NextIsRegular(s: State, w: nat)
    requires w < |s.workers| && !s.workers[w].Ended?
    ensures IsRegular(NextOf(s, w)) && IsWorkerStep(NextOf(s, w)) && NextOf(s, w).w == w
  {
  }

  /** As long as a session is not closed, a regular step is enabled: one of any worker that has not ended,
      and one of the supervisor when all of them have. */
  lemma NoDeadlock(row: seq<Run>, workerCount: nat, s: State) returns (step: Step)
    requires row != [] && WellShaped(row) && Reachable(row, workerCount, s) && !s.supervisor.Closed?
    ensures IsRegular(step) && Perform(s, step).Some?
  {
    if w: nat :| w < |s.workers| && !s.workers[w].Ended? {
      step := NextOf(s, w);
      NextIsRegular(s, w);
      WorkerNeverWaits(row, workerCount, s, w);
    } else {
      step := NextOfSupervisor(s);
      SupervisorNeverWaits(s);
    }
  }

  lemma RegularWorkerStep(s: State, step: Step)
    requires IsWorkerStep(step) && step.w < |s.workers| && WorkerStep(s, step, step.w).Some? && IsRegular(step)
    ensures var t := WorkerStep(s, step, step.w).value;
      t.keepRunning == s.keepRunning && t.history.failures == s.history.failures
  {
  }

  lemma RegularStep(s: State, step: Step)
    requires Perform(s, step).Some? && IsRegular(step)
    ensures var t := Perform(s, step).value;
      t.keepRunning == s.keepRunning && t.history.failures == s.history.failures
  {
    if IsWorkerStep(step) {
      RegularWorkerStep(s, step);
    }
  }

  function Continued(before: Option<State>, step: Step): Option<State> {
    if before.None? then None else Perform(before.value, step)
  }

  lemma OneStepMore(s: State, steps: seq<Step>, step: Step)
    ensures Behaviour(s, steps + [step]) == Continued(Behaviour(s, steps), step)
  {
    assert (steps + [step])[..|steps|] == steps;
  }

  lemma {:induction false} BehaviourFrom(s: State, step: Step, rest: seq<Step>)
    requires Perform(s, step).Some?
    ensures Behaviour(s, [step] + rest) == Behaviour(Perform(s, step).value, rest)
    decreases |rest|
  {
    var n := |rest| - 1;
    if n < 0 {
      OneStepMore(s, [], step);
      assert [] + [step] == [step] + rest;
    } else {
      BehaviourFrom(s, step, rest[..n]);
      OneStepMore(s, [step] + rest[..n], rest[n]);
      OneStepMore(Perform(s, step).value, rest[..n], rest[n]);
      assert [step] + rest == [step] + rest[..n] + [rest[n]] && rest == rest[..n] + [rest[n]];
    }
  }

  /** From every reachable state the session can be closed by regular steps alone. */
  lemma {:induction false} ClosedIsAttainable(row: seq<Run>, workerCount: nat, s: State) returns (steps: seq<Step>)
    requires row != [] && WellShaped(row) && Reachable(row, workerCount, s)
    ensures forall step :: step in steps ==> IsRegular(step)
    ensures Behaviour(s, steps).Some?
    ensures var t := Behaviour(s, steps).value;
      Reachable(row, workerCount, t) && t.supervisor.Closed? &&
      t.keepRunning == s.keepRunning && t.history.failures == s.history.failures
    decreases Left(s)
  {
    if s.supervisor.Closed? {
      steps := [];
    } else {
      var step := NoDeadlock(row, workerCount, s);
      var next := ReachableStep(row, workerCount, s, step);
      StepUsesUp(s, step);
      RegularStep(s, step);
      var rest := ClosedIsAttainable(row, workerCount, next);
      steps := [step] + rest;
      BehaviourFrom(s, step, rest);
    }
  }

  /** A session without a failure and a cancel so far can always still run everything: regular steps lead
      to where every scheduled run was executed exactly once and the row is dropped. */
  lemma SessionCanComplete(row: seq<Run>, workerCount: nat, s: State) returns (steps: seq<Step>)
    requires row != [] && NoEmptyRun(row) && Reachable(row, workerCount, s)
    requires workerCount > 0 && s.keepRunning && s.history.failures == 0
    ensures forall step :: step in steps ==> IsRegular(step)
    ensures Behaviour(s, steps).Some?
    ensures var t := Behaviour(s, steps).value;
      t.supervisor.Closed? && t.row.None? && forall x :: multiset(t.history.executed)[x] == Count(x in HashSet(row))
  {
    steps := ClosedIsAttainable(row, workerCount, s);
    var t := Behaviour(s, steps).value;
    ReachableIsInvariant(row, workerCount, t);
    CompleteSessionRunsEverything(row, workerCount, t, RunHash(row[0]));
    forall x ensures multiset(t.history.executed)[x] == Count(x in HashSet(row)) {
      CompleteSessionRunsEverything(row, workerCount, t, x);
    }
  }
}
