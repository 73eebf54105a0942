/** The optimizer's queues over whole behaviours: what is lost, what is run twice, what blocks. */
module RunQueueTheorems {
  import opened Options
  import opened OptimizerRuns
  import opened OptimizerSchedule
  import opened RunQueue
  import opened RunQueueSafety
  import opened RunQueueInvariant

  /** In every reachable state each scheduled hash is in exactly one place, no other hash is anywhere,
      and no hash was ever started twice. */
  lemma EachRunIsInOnePlace(row: seq<Run>, workerCount: nat, s: State, x: Hash)
    requires row != [] && WellShaped(row) && Reachable(row, workerCount, s)
    ensures Places(s, x) == Count(x in HashSet(row))
    ensures multiset(s.history.executed)[x] <= Count(x in HashSet(row))
  {
    ReachableIsInvariant(row, workerCount, s);
    assert Places(s, x) == One(row, x) && StartedOrNot(s, x) == One(row, x);
  }

  /** No run is lost before it is picked: the row still holds every unpicked hash, or it was dropped
      once the start queue was empty. */
  lemma NoUnpickedRunIsLost(row: seq<Run>, workerCount: nat, s: State)
    requires row != [] && WellShaped(row) && Reachable(row, workerCount, s)
    ensures s.row.Some? ==>
      forall x :: x in s.start || x in s.history.unpicked ==> x in HashSet(s.row.value)
    ensures s.row.None? ==> s.start == [] && s.history.unpicked == multiset{}
  {
    ReachableIsInvariant(row, workerCount, s);
    if s.row.Some? {
      WithoutHashes(row, s.history.erased);
      forall x | x in s.start || x in s.history.unpicked ensures x in HashSet(s.row.value) {
        assert Places(s, x) == One(row, x);
      }
    }
  }

  /** A worker that reaches a non-empty start queue always finds, under the hash it picks, a scheduled
      run with that hash. */
  lemma PickFindsItsRun(row: seq<Run>, workerCount: nat, s: State, w: nat)
    requires row != [] && WellShaped(row) && Reachable(row, workerCount, s)
    requires w < |s.workers| && s.workers[w].Picking? && s.start != []
    ensures var details := s.workers[w].details;
      s.start[0] in details && details[s.start[0]] in row && RunHash(details[s.start[0]]) == s.start[0]
  {
    ReachableIsInvariant(row, workerCount, s);
    assert WorkerFits(row, s, s.workers[w]) && s.start[0] in s.start;
  }

  lemma {:induction false} CountedQueueFits(queue: seq<Hash>, all: set<Hash>)
    requires forall x :: multiset(queue)[x] <= Count(x in all)
    ensures |queue| <= |all|
  {
    if queue != [] {
      var x := queue[0];
      forall y ensures multiset(queue[1..])[y] <= Count(y in all - {x}) {
        HeadOfQueue(queue, y);
      }
      HeadOfQueue(queue, x);
      CountedQueueFits(queue[1..], all - {x});
    }
  }

  /** The done queue, sized to the number of distinct runs, always has room for a finished run: putting
      its hash never blocks the worker. */
  lemma DoneQueueNeverBlocks(row: seq<Run>, workerCount: nat, s: State, w: nat, fails: bool)
    requires row != [] && WellShaped(row) && Reachable(row, workerCount, s)
    requires w < |s.workers| && s.workers[w].Executing?
    ensures Perform(s, Finish(w, fails)).Some?
  {
    ReachableIsInvariant(row, workerCount, s);
    var hash := s.workers[w].hash;
    SumOverHolds(s.workers, false, w, hash);
    assert Places(s, hash) == One(row, hash);
    forall x ensures multiset(s.done)[x] <= Count(x in HashSet(row) - {hash}) {
      assert Places(s, x) == One(row, x);
    }
    CountedQueueFits(s.done, HashSet(row) - {hash});
  }

  /** A session that is neither cancelled nor hit by a failure ends with every scheduled run executed
      exactly once and the row dropped. */
  lemma CompleteSessionRunsEverything(row: seq<Run>, workerCount: nat, s: State, x: Hash)
    requires row != [] && NoEmptyRun(row) && Reachable(row, workerCount, s)
    requires workerCount > 0 && AllEnded(s.workers)
    requires s.keepRunning && s.history.failures == 0
    ensures s.row.None? && s.start == []
    ensures multiset(s.history.executed)[x] == Count(x in HashSet(row))
  {
    ReachableIsInvariant(row, workerCount, s);
    assert WorkerFits(row, s, s.workers[0]);
    NothingHeld(s.workers, true, x);
    assert StartedOrNot(s, x) == One(row, x);
  }

  /** A run that was started and reported as done. */
  predicate IsFinished(s: State, x: Hash) {
    x in s.history.executed && x !in s.history.killed
  }

  lemma ClosedPlaces(row: seq<Run>, workerCount: nat, s: State, x: Hash)
    requires row != [] && WellShaped(row) && Reachable(row, workerCount, s)
    requires s.supervisor.Closed?
    ensures Invariant(row, s) && s.start == [] && s.done == []
    ensures var h := s.history;
      && h.drained[x] + h.forgotten[x] + h.unstarted[x] + h.killed[x] + h.unpicked[x] == One(row, x)
      && multiset(h.executed)[x] + h.unstarted[x] + h.unpicked[x] == One(row, x)
  {
    ReachableIsInvariant(row, workerCount, s);
    NothingHeld(s.workers, false, x);
    NothingHeld(s.workers, true, x);
    assert Places(s, x) == One(row, x) && StartedOrNot(s, x) == One(row, x);
  }

  /** After cleanup a scheduled run is gone for good without having been finished exactly when the row
      was dropped and that run failed before its backtesting started or was killed during it. */
  lemma LostExactly(row: seq<Run>, workerCount: nat, s: State, x: Hash)
    requires row != [] && WellShaped(row) && Reachable(row, workerCount, s)
    requires s.supervisor.Closed? && x in HashSet(row)
    ensures !IsFinished(s, x) && (s.row.None? || x !in HashSet(s.row.value))
      <==> s.row.None? && (x in s.history.unstarted || x in s.history.killed)
  {
    ClosedPlaces(row, workerCount, s, x);
    WithoutHashes(row, s.history.erased);
  }

  /** The runs that were finished and handed to a database update. */
  function DrainedRuns(s: State): set<Hash> {
    set x | x in s.history.executed && IsFinished(s, x) && x !in s.history.forgotten
  }

  /** What a session leaves for the next one: the runs that were not finished, or finished without any
      drain taking them, in their order; unless all were drained, in which case a row that was not
      dropped still holds drained ones only. */
  lemma RowAfterSession(row: seq<Run>, workerCount: nat, s: State)
    requires row != [] && WellShaped(row) && Reachable(row, workerCount, s)
    requires s.supervisor.Closed? && s.row.Some?
    ensures WellShaped(s.row.value) && s.row.value != []
    ensures if HashSet(row) <= DrainedRuns(s) then HashSet(s.row.value) <= DrainedRuns(s)
      else s.row.value == Without(row, DrainedRuns(s))
  {
    var h, drained := s.history, DrainedRuns(s);
    forall x ensures x in h.drained <==> x in drained {
      ClosedPlaces(row, workerCount, s, x);
    }
    ReachableIsInvariant(row, workerCount, s);
    WithoutHashes(row, h.erased);
    WithoutMembers(row, h.erased);
    if row == [[]] {
      assert forall run :: run in s.row.value ==> run == [];
      assert s.row.value == [[]];
    }
    if !(HashSet(row) <= drained) {
      assert h.erased == drained;
    }
  }

  /** Resuming after a session repeats a finished run exactly when a drain lost a finished run's hash, or
      every run was finished and yet no worker dropped the row: a stop or a failure came after the last run,
      and the last drain never writes an empty schedule. */
  lemma RepeatedOnResumeExactly(row: seq<Run>, workerCount: nat, s: State)
    requires row != [] && WellShaped(row) && Reachable(row, workerCount, s)
    requires s.supervisor.Closed? && s.row.Some?
    ensures (exists x :: x in HashSet(s.row.value) && IsFinished(s, x))
      <==> s.history.forgotten != multiset{} || forall x :: x in HashSet(row) ==> IsFinished(s, x)
  {
    RowAfterSession(row, workerCount, s);
    WithoutHashes(row, DrainedRuns(s));
    if s.history.forgotten != multiset{} {
      var x :| x in s.history.forgotten;
      ForgottenIsRepeated(row, workerCount, s, x);
    } else if HashSet(row) <= DrainedRuns(s) {
      var x := RunHash(s.row.value[0]);
      assert s.row.value[0] in s.row.value && x in HashSet(s.row.value);
      assert IsFinished(s, x);
    }
  }

  lemma ForgottenIsRepeated(row: seq<Run>, workerCount: nat, s: State, x: Hash)
    requires row != [] && WellShaped(row) && Reachable(row, workerCount, s)
    requires s.supervisor.Closed? && s.row.Some? && x in s.history.forgotten
    ensures x in HashSet(s.row.value) && IsFinished(s, x)
  {
    ClosedPlaces(row, workerCount, s, x);
    WithoutHashes(row, s.history.erased);
  }

  /** A row is only ever dropped when every scheduled run has been picked: each of them is in a worker's
      hands, done, drained, failed before its start or killed. */
  lemma DroppedWhenAllPicked(row: seq<Run>, workerCount: nat, s: State, w: nat, x: Hash)
    requires row != [] && WellShaped(row) && Reachable(row, workerCount, s)
    requires w < |s.workers| && s.workers[w].Dropping?
    ensures Perform(s, Drop(w)).Some? && Perform(s, Drop(w)).value.row == None
    ensures x in HashSet(row) ==> x in s.history.executed || x in s.history.unstarted || SumOver(s.workers, true, x) > 0
  {
    ReachableIsInvariant(row, workerCount, s);
    assert WorkerFits(row, s, s.workers[w]);
    assert StartedOrNot(s, x) == One(row, x);
  }

  // ---------- who updates the row ----------

  predicate OnlyFirstDrains(workers: seq<Worker>) {
    forall w | 0 < w < |workers| :: !workers[w].Updating? && !workers[w].Writing?
  }

  lemma StepKeepsDrainer(s: State, step: Step)
    requires OnlyFirstDrains(s.workers) && Perform(s, step).Some?
    ensures OnlyFirstDrains(Perform(s, step).value.workers)
  {
    if IsWorkerStep(step) {
      WorkerStepIsLocal(s, step);
      assert step.w > 0 ==> !s.workers[step.w].Updating? && !s.workers[step.w].Writing?;
    }
  }

  lemma {:induction false} BehaviourKeepsDrainer(initial: State, steps: seq<Step>)
    requires OnlyFirstDrains(initial.workers) && Behaviour(initial, steps).Some?
    ensures OnlyFirstDrains(Behaviour(initial, steps).value.workers)
    decreases |steps|
  {
    var n := |steps| - 1;
    if n >= 0 {
      BehaviourKeepsDrainer(initial, steps[..n]);
      StepKeepsDrainer(Behaviour(initial, steps[..n]).value, steps[n]);
    }
  }

  lemma RowIsLeft(s: State, step: Step)
    requires Perform(s, step).Some? && Perform(s, step).value.row != s.row
    ensures step.Write? || step.Drop? || step.SupervisorWrite?
    ensures step.Write? ==> step.w < |s.workers| && s.workers[step.w].Writing?
  {
  }

  /** Of the workers only the first one collects what was done and rewrites the row; other than that the row
      only changes by being dropped and by the supervisor's own update. */
  lemma OnlyFirstWorkerDrains(row: seq<Run>, workerCount: nat, s: State, step: Step)
    requires Reachable(row, workerCount, s) && Perform(s, step).Some?
    ensures forall w | 0 < w < |s.workers| :: !s.workers[w].Updating? && !s.workers[w].Writing?
    ensures Perform(s, step).value.row != s.row ==> step == Write(0) || step.Drop? || step == SupervisorWrite
  {
    var generated, steps :| Behaviour(Initial(row, workerCount, generated), steps) == Some(s);
    BehaviourKeepsDrainer(Initial(row, workerCount, generated), steps);
    if Perform(s, step).value.row != s.row {
      RowIsLeft(s, step);
    }
  }

  /** What a worker that starts reads: in a session that generated its schedule all of its runs, even of a row
      that is gone; otherwise the runs that no update has taken out of the row, and nothing of a dropped one. */
  lemma WhatIsRead(row: seq<Run>, workerCount: nat, generated: bool, steps: seq<Step>, s: State, w: nat)
    requires row != [] && WellShaped(row) && Behaviour(Initial(row, workerCount, generated), steps) == Some(s)
    requires w < |s.workers| && s.workers[w].Starting?
    ensures var step := Perform(s, ReadRow(w));
      && step.Some? && w < |step.value.workers|
      && step.value.workers[w] ==
        if generated then Looping(DetailsByHash(row), false)
        else if s.row.Some? then Looping(DetailsByHash(Without(row, s.history.erased)), false)
        else Dropping
  {
    SnapshotStays(Initial(row, workerCount, generated), steps);
    ReachableIsInvariant(row, workerCount, s);
  }

  lemma {:induction false} SnapshotStays(initial: State, steps: seq<Step>)
    requires Behaviour(initial, steps).Some?
    ensures Behaviour(initial, steps).value.snapshot == initial.snapshot
    decreases |steps|
  {
    var n := |steps| - 1;
    if n >= 0 {
      SnapshotStays(initial, steps[..n]);
      StepKeepsCapacity(Behaviour(initial, steps[..n]).value, steps[n]);
    }
  }

  // ---------- what is reachable ----------

  lemma ReachableInitial(row: seq<Run>, workerCount: nat, generated: bool)
    ensures Reachable(row, workerCount, Initial(row, workerCount, generated))
  {
    assert Behaviour(Initial(row, workerCount, generated), []) == Some(Initial(row, workerCount, generated));
  }

  lemma ReachableStep(row: seq<Run>, workerCount: nat, s: State, step: Step) returns (t: State)
    requires Reachable(row, workerCount, s) && Perform(s, step).Some?
    ensures t == Perform(s, step).value && Reachable(row, workerCount, t)
  {
    t := Perform(s, step).value;
    var generated, steps :| Behaviour(Initial(row, workerCount, generated), steps) == Some(s);
    assert (steps + [step])[..|steps|] == steps;
    assert Behaviour(Initial(row, workerCount, generated), steps + [step]) == Some(t);
  }
}
