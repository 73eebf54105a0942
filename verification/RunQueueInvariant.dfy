/** The inductive invariant of the optimizer's queues, and that every step keeps it. */
module RunQueueInvariant {
  import opened Options
  import opened OptimizerRuns
  import opened OptimizerSchedule
  import opened RunQueue
  import opened RunQueueSafety

  /** A worker's map still covers every hash it could pick, each with a scheduled run of that hash. */
  predicate Covers(row: seq<Run>, start: seq<Hash>, details: map<Hash, Run>) {
    && (forall x :: x in start ==> x in details)
    && (forall x :: x in details ==> details[x] in row && RunHash(details[x]) == x)
  }

  predicate HasDetails(worker: Worker) {
    worker.Looping? || worker.Picking? || worker.Selected? || worker.Executing? || worker.Updating? || worker.Writing?
  }

  predicate WorkerFits(row: seq<Run>, s: State, worker: Worker) {
    && (HasDetails(worker) ==> Covers(row, s.start, worker.details))
    && (worker.Selected? ==> worker.run in row && RunHash(worker.run) == worker.hash && worker.run != [])
    && (worker.Dropping? ==> s.start == [])
    && (worker.Updating? && worker.stopping ==> !s.keepRunning)
    && (worker.Writing? ==> (worker.stopping ==> !s.keepRunning) && worker.collected != {})
    && (worker.Ended? && s.keepRunning && s.history.failures == 0 ==> s.row.None?)
  }

  ghost predicate WorkersFit(row: seq<Run>, s: State) {
    forall w :: 0 <= w < |s.workers| ==> WorkerFits(row, s, s.workers[w])
  }

  /** The row is the scheduled one without the hashes erased from it: exactly the drained ones, unless
      that would leave nothing. It is only ever missing once the start queue is empty. */
  ghost predicate RowFits(row: seq<Run>, s: State) {
    var h := s.history;
    && (s.row.Some? ==> s.row.value == Without(row, h.erased) && s.row.value != [])
    && (forall x :: x in h.erased ==> x in h.drained)
    && (s.row.Some? ==>
      (forall x :: x in h.drained ==> x in h.erased) || (forall x :: x in HashSet(row) ==> x in h.drained))
    && (s.row.None? ==> s.start == [] && h.unpicked == multiset{})
  }

  /** Without a failure every picked run with inputs is started and reported. */
  predicate LossFits(row: seq<Run>, s: State) {
    s.history.failures == 0 && NoEmptyRun(row) ==>
      s.history.unstarted == multiset{} && s.history.killed == multiset{}
  }

  predicate PhaseFits(s: State) {
    && (s.supervisor.Supervising? || AllEnded(s.workers))
    && (s.supervisor.Supervising? || s.supervisor.Emptying? ==> s.history.unpicked == multiset{})
    && (s.supervisor.Closed? ==> s.start == [] && s.done == [])
  }

  ghost predicate Invariant(row: seq<Run>, s: State) {
    && Conserved(row, s)
    && WorkersFit(row, s)
    && RowFits(row, s)
    && PhaseFits(s)
    && LossFits(row, s)
    && s.capacity == |HashSet(row)|
    && (s.snapshot.Some? ==> s.snapshot.value == row)
  }

  lemma StepConserves(row: seq<Run>, s: State, step: Step)
    requires Conserved(row, s) && Perform(s, step).Some?
    ensures Conserved(row, Perform(s, step).value)
  {
    forall x ensures Kept(s, Perform(s, step).value, x) {
      if step.Collect? {
        assert Places(s, s.done[0]) == One(row, s.done[0]);
        SumOverHolds(s.workers, false, step.w, s.done[0]);
      }
      if step.SupervisorCollect? {
        assert Places(s, s.done[0]) == One(row, s.done[0]);
      }
      StepKeeps(s, step, x);
    }
    forall x ensures var t := Perform(s, step).value;
      Places(t, x) == One(row, x) && StartedOrNot(t, x) == One(row, x)
    {
      assert Kept(s, Perform(s, step).value, x);
      assert Places(s, x) == One(row, x);
    }
  }

  lemma StartIsInRow(row: seq<Run>, s: State, x: Hash)
    requires Conserved(row, s) && RowFits(row, s)
    requires x in s.start
    ensures s.row.Some? && x in HashSet(s.row.value) && x in HashSet(row)
  {
    assert Places(s, x) == One(row, x);
    WithoutHashes(row, s.history.erased);
  }

  lemma PoppedOnce(row: seq<Run>, s: State)
    requires Conserved(row, s) && s.start != []
    ensures s.start[0] !in s.start[1..] && s.start[0] in HashSet(row)
    ensures HashSet(row) == {s.start[0]} ==> s.start[1..] == []
  {
    var x := s.start[0];
    assert Places(s, x) == One(row, x);
    HeadOfQueue(s.start, x);
    if s.start[1..] != [] {
      var y := s.start[1..][0];
      assert y in s.start && Places(s, y) == One(row, y);
    }
  }

  // ---------- workers ----------

  /** What only ever changes in one direction. */
  ghost predicate Later(s: State, t: State) {
    && (forall x :: x in t.start ==> x in s.start)
    && (s.start == [] ==> t.start == [])
    && (t.keepRunning ==> s.keepRunning)
    && (t.history.failures == 0 ==> s.history.failures == 0)
    && (s.row.None? ==> t.row.None?)
  }

  lemma WorkerStepIsLater(s: State, step: Step)
    requires IsWorkerStep(step) && step.w < |s.workers| && WorkerStep(s, step, step.w).Some?
    ensures Later(s, WorkerStep(s, step, step.w).value)
  {
  }

  lemma StillFits(row: seq<Run>, s: State, t: State, worker: Worker)
    requires WorkerFits(row, s, worker) && Later(s, t)
    ensures WorkerFits(row, t, worker)
  {
  }

  lemma ReadFits(row: seq<Run>, s: State)
    requires Conserved(row, s) && RowFits(row, s)
    requires s.snapshot.Some? ==> s.snapshot.value == row
    requires ReadRuns(s.row, s.snapshot).Some?
    ensures Covers(row, s.start, DetailsByHash(ReadRuns(s.row, s.snapshot).value))
  {
    var runs := ReadRuns(s.row, s.snapshot).value;
    forall x | x in s.start ensures x in DetailsByHash(runs) {
      StartIsInRow(row, s, x);
      DetailsFitRow(runs, x);
    }
    WithoutMembers(row, s.history.erased);
    forall x | x in DetailsByHash(runs)
      ensures DetailsByHash(runs)[x] in row && RunHash(DetailsByHash(runs)[x]) == x
    {
      DetailsFitRow(runs, x);
    }
  }

  /** A pick always finds its run; it is only empty when it was the last and only one. */
  lemma PickFits(row: seq<Run>, s: State, w: nat)
    requires Invariant(row, s) && WellShaped(row)
    requires w < |s.workers| && s.workers[w].Picking? && s.start != []
    ensures s.start[0] in s.workers[w].details
    ensures var t := WorkerStep(s, Pick(w), w).value; WorkerFits(row, t, t.workers[w])
  {
    var worker, hash := s.workers[w], s.start[0];
    assert WorkerFits(row, s, worker) && hash in s.start;
    PoppedOnce(row, s);
    if worker.details[hash] == [] {
      assert row == [[]] && HashSet(row) == {hash};
    } else {
      forall x | x in s.start[1..] ensures x in worker.details - {hash} {
        assert x in s.start;
      }
    }
  }

  lemma IterationFits(row: seq<Run>, s: State, step: Step)
    requires step.Start? || step.Finish? || step.Check? || step.Drop? || step.Fail?
    requires step.w < |s.workers| && WorkerStep(s, step, step.w).Some?
    requires WorkerFits(row, s, s.workers[step.w])
    ensures var t := WorkerStep(s, step, step.w).value; step.w < |t.workers| && WorkerFits(row, t, t.workers[step.w])
  {
  }

  lemma DrainFits(row: seq<Run>, s: State, step: Step)
    requires step.BeginUpdate? || step.Collect? || step.EndCollect? || step.Write?
    requires step.w < |s.workers| && WorkerStep(s, step, step.w).Some?
    requires WorkerFits(row, s, s.workers[step.w])
    ensures var t := WorkerStep(s, step, step.w).value; step.w < |t.workers| && WorkerFits(row, t, t.workers[step.w])
  {
  }

  lemma {:induction false} WorkerStepFits(row: seq<Run>, s: State, step: Step)
    requires Invariant(row, s) && WellShaped(row)
    requires IsWorkerStep(step) && step.w < |s.workers| && WorkerStep(s, step, step.w).Some?
    ensures var t := WorkerStep(s, step, step.w).value; step.w < |t.workers| && WorkerFits(row, t, t.workers[step.w])
  {
    assert WorkerFits(row, s, s.workers[step.w]);
    if step.Pick? {
      if s.start != [] {
        PickFits(row, s, step.w);
      }
    } else if step.ReadRow? {
      if ReadRuns(s.row, s.snapshot).Some? {
        ReadFits(row, s);
      }
    } else if step.Start? || step.Finish? || step.Check? || step.Drop? || step.Fail? {
      IterationFits(row, s, step);
    } else {
      DrainFits(row, s, step);
    }
  }

  lemma OthersStillFit(row: seq<Run>, s: State, t: State, w: nat)
    requires WorkersFit(row, s) && Later(s, t)
    requires |t.workers| == |s.workers|
    requires forall v :: 0 <= v < |s.workers| && v != w ==> t.workers[v] == s.workers[v]
    requires w < |t.workers| ==> WorkerFits(row, t, t.workers[w])
    ensures WorkersFit(row, t)
  {
    forall v | 0 <= v < |t.workers| ensures WorkerFits(row, t, t.workers[v]) {
      if v != w {
        StillFits(row, s, t, s.workers[v]);
      }
    }
  }

  lemma WorkerStepKeepsWorkers(row: seq<Run>, s: State, step: Step)
    requires Invariant(row, s) && WellShaped(row)
    requires IsWorkerStep(step) && step.w < |s.workers| && WorkerStep(s, step, step.w).Some?
    ensures WorkersFit(row, WorkerStep(s, step, step.w).value)
  {
    WorkerStepIsLater(s, step);
    WorkerStepFits(row, s, step);
    WorkerStepIsLocal(s, step);
    OthersStillFit(row, s, WorkerStep(s, step, step.w).value, step.w);
  }

  lemma WorkerStepIsLocal(s: State, step: Step)
    requires IsWorkerStep(step) && step.w < |s.workers| && WorkerStep(s, step, step.w).Some?
    ensures var t := WorkerStep(s, step, step.w).value;
      |t.workers| == |s.workers| && forall v :: 0 <= v < |s.workers| && v != step.w ==> t.workers[v] == s.workers[v]
  {
  }

  lemma SupervisorStepIsLater(s: State, step: Step)
    requires SupervisorStep(s, step).Some?
    ensures var t := SupervisorStep(s, step).value; Later(s, t) && t.workers == s.workers
  {
  }

  lemma SupervisorStepKeepsWorkers(row: seq<Run>, s: State, step: Step)
    requires Invariant(row, s) && SupervisorStep(s, step).Some?
    ensures WorkersFit(row, SupervisorStep(s, step).value)
  {
    SupervisorStepIsLater(s, step);
    OthersStillFit(row, s, SupervisorStep(s, step).value, |s.workers|);
  }

  lemma StepKeepsWorkers(row: seq<Run>, s: State, step: Step)
    requires Invariant(row, s) && WellShaped(row)
    requires Perform(s, step).Some?
    ensures WorkersFit(row, Perform(s, step).value)
  {
    if IsWorkerStep(step) {
      WorkerStepKeepsWorkers(row, s, step);
    } else {
      SupervisorStepKeepsWorkers(row, s, step);
    }
  }

  // ---------- row and phases ----------

  lemma UpdateFits(row: seq<Run>, s: State, collected: set<Hash>)
    requires RowFits(row, s) && WellShaped(row)
    requires collected != {} && collected <= HashSet(row)
    ensures RowFits(row, Update(s, collected))
  {
    var t := Update(s, collected);
    if s.row.Some? {
      WithoutTwice(row, s.history.erased, collected);
      var left := Without(s.row.value, collected);
      WithoutHashes(row, s.history.erased + collected);
      WithoutMembers(row, s.history.erased + collected);
      if left != [] {
        assert left[0] in left;
        assert left[0] != [];
        assert t.history.erased == s.history.erased + collected;
      } else {
        assert forall x :: x in HashSet(row) ==> x in t.history.drained;
      }
    }
  }

  lemma HeldIsScheduled(row: seq<Run>, s: State, w: nat)
    requires Conserved(row, s) && w < |s.workers| && s.workers[w].Writing?
    ensures s.workers[w].collected <= HashSet(row)
  {
    forall x | x in s.workers[w].collected ensures x in HashSet(row) {
      assert Places(s, x) == One(row, x);
      SumOverHolds(s.workers, false, w, x);
    }
  }

  lemma WriteKeepsRow(row: seq<Run>, s: State, w: nat)
    requires Invariant(row, s) && WellShaped(row)
    requires Perform(s, Write(w)).Some?
    ensures RowFits(row, Perform(s, Write(w)).value)
  {
    assert WorkerFits(row, s, s.workers[w]);
    HeldIsScheduled(row, s, w);
    UpdateFits(row, s, s.workers[w].collected);
  }

  /** The row and what has happened to it are left, but for a drop. */
  ghost predicate LeavesRow(s: State, t: State) {
    t.history.erased == s.history.erased && t.history.drained == s.history.drained &&
    (t.row == s.row || t.row.None?)
  }

  lemma WorkerLeavesRow(s: State, step: Step)
    requires IsWorkerStep(step) && step.w < |s.workers| && WorkerStep(s, step, step.w).Some? && !step.Write?
    ensures var t := WorkerStep(s, step, step.w).value;
      LeavesRow(s, t) && t.history.unpicked == s.history.unpicked && (t.row == s.row || step.Drop?)
  {
  }

  lemma RowStillFits(row: seq<Run>, s: State, t: State)
    requires RowFits(row, s) && LeavesRow(s, t)
    requires t.row.None? ==> t.start == [] && t.history.unpicked == multiset{}
    ensures RowFits(row, t)
  {
  }

  lemma CollectedIsScheduled(row: seq<Run>, s: State)
    requires Conserved(row, s) && s.supervisor.Emptying?
    ensures s.supervisor.collected <= HashSet(row)
  {
    forall x | x in s.supervisor.collected ensures x in HashSet(row) {
      assert Places(s, x) == One(row, x);
    }
  }

  lemma SupervisorWriteKeepsRow(row: seq<Run>, s: State)
    requires Conserved(row, s) && RowFits(row, s) && WellShaped(row)
    requires s.supervisor.Emptying? && s.done == []
    ensures RowFits(row, SupervisorStep(s, SupervisorWrite).value)
  {
    var collected := s.supervisor.collected;
    var updated := if collected == {} then s else Update(s, collected);
    if collected != {} {
      CollectedIsScheduled(row, s);
      UpdateFits(row, s, collected);
    }
    RowStillFits(row, updated, updated.(supervisor := Discarding));
  }

  lemma SupervisorLeavesRow(s: State, step: Step)
    requires SupervisorStep(s, step).Some? && PhaseFits(s) && !step.SupervisorWrite?
    ensures var t := SupervisorStep(s, step).value;
      LeavesRow(s, t) && t.row == s.row && (s.start == [] ==> t.start == [] && t.history.unpicked == s.history.unpicked)
  {
  }

  lemma OtherKeepsRow(row: seq<Run>, s: State, step: Step)
    requires RowFits(row, s) && PhaseFits(s)
    requires Perform(s, step).Some? && !step.Write? && !step.SupervisorWrite?
    requires step.Drop? ==> s.start == [] && s.supervisor.Supervising?
    ensures RowFits(row, Perform(s, step).value)
  {
    if IsWorkerStep(step) {
      WorkerStepIsLater(s, step);
      WorkerLeavesRow(s, step);
      RowStillFits(row, s, WorkerStep(s, step, step.w).value);
    } else {
      SupervisorLeavesRow(s, step);
      RowStillFits(row, s, SupervisorStep(s, step).value);
    }
  }

  lemma {:induction false} StepKeepsRow(row: seq<Run>, s: State, step: Step)
    requires Invariant(row, s) && WellShaped(row)
    requires Perform(s, step).Some?
    ensures RowFits(row, Perform(s, step).value)
  {
    if step.Write? {
      WriteKeepsRow(row, s, step.w);
    } else if step.SupervisorWrite? {
      SupervisorWriteKeepsRow(row, s);
    } else {
      assert step.Drop? ==> WorkerFits(row, s, s.workers[step.w]) && !s.workers[step.w].Ended?;
      OtherKeepsRow(row, s, step);
    }
  }

  lemma WorkerStepKeepsPhases(s: State, step: Step)
    requires IsWorkerStep(step) && step.w < |s.workers| && WorkerStep(s, step, step.w).Some?
    requires PhaseFits(s)
    ensures PhaseFits(WorkerStep(s, step, step.w).value)
  {
    OnlyWhileSupervising(s, step);
  }

  lemma OnlyWhileSupervising(s: State, step: Step)
    requires IsWorkerStep(step) && step.w < |s.workers| && WorkerStep(s, step, step.w).Some?
    requires PhaseFits(s)
    ensures var t := WorkerStep(s, step, step.w).value;
      s.supervisor.Supervising? && t.supervisor.Supervising? && t.history.unpicked == s.history.unpicked
  {
    assert !s.workers[step.w].Ended?;
  }

  lemma SupervisorStepKeepsPhases(s: State, step: Step)
    requires PhaseFits(s) && SupervisorStep(s, step).Some?
    ensures PhaseFits(SupervisorStep(s, step).value)
  {
  }

  lemma StepKeepsPhases(s: State, step: Step)
    requires PhaseFits(s) && Perform(s, step).Some?
    ensures PhaseFits(Perform(s, step).value)
  {
    if IsWorkerStep(step) {
      WorkerStepKeepsPhases(s, step);
    } else {
      SupervisorStepKeepsPhases(s, step);
    }
  }

  ghost predicate LosesNothing(s: State, t: State) {
    t.history.failures == 0 ==>
      s.history.failures == 0 && t.history.unstarted == s.history.unstarted && t.history.killed == s.history.killed
  }

  lemma SupervisorLosesNothing(s: State, step: Step)
    requires SupervisorStep(s, step).Some?
    ensures LosesNothing(s, SupervisorStep(s, step).value)
  {
  }

  lemma WorkerLosesNothing(row: seq<Run>, s: State, step: Step)
    requires IsWorkerStep(step) && step.w < |s.workers| && WorkerStep(s, step, step.w).Some?
    requires WorkerFits(row, s, s.workers[step.w]) && NoEmptyRun(row)
    ensures LosesNothing(s, WorkerStep(s, step, step.w).value)
  {
  }

  lemma StepKeepsLosses(row: seq<Run>, s: State, step: Step)
    requires LossFits(row, s) && WorkersFit(row, s) && Perform(s, step).Some?
    ensures LossFits(row, Perform(s, step).value)
  {
    if !IsWorkerStep(step) {
      SupervisorLosesNothing(s, step);
    } else if NoEmptyRun(row) {
      WorkerLosesNothing(row, s, step);
    }
  }

  lemma StepKeepsCapacity(s: State, step: Step)
    requires Perform(s, step).Some?
    ensures Perform(s, step).value.capacity == s.capacity && Perform(s, step).value.snapshot == s.snapshot
  {
  }

  lemma StepKeepsInvariant(row: seq<Run>, s: State, step: Step)
    requires Invariant(row, s) && WellShaped(row)
    requires Perform(s, step).Some?
    ensures Invariant(row, Perform(s, step).value)
  {
    StepConserves(row, s, step);
    StepKeepsWorkers(row, s, step);
    StepKeepsRow(row, s, step);
    StepKeepsPhases(s, step);
    StepKeepsLosses(row, s, step);
    StepKeepsCapacity(s, step);
  }

  // ---------- creation ----------

  lemma {:induction false} DistinctCount(runs: seq<Run>, x: Hash)
    requires DistinctHashes(runs)
    ensures multiset(HashesOf(runs))[x] == Count(x in HashSet(runs))
    decreases |runs|
  {
    var n := |runs| - 1;
    if n < 0 {
      assert HashesOf(runs) == [];
    } else {
      DistinctCount(runs[..n], x);
      HashSetOfLast(runs);
      assert HashesOf(runs) == HashesOf(runs[..n]) + [RunHash(runs[n])];
    }
  }

  lemma {:induction false} DistinctCardinality(runs: seq<Run>)
    requires DistinctHashes(runs)
    ensures |HashSet(runs)| == |runs|
    decreases |runs|
  {
    var n := |runs| - 1;
    if n >= 0 {
      DistinctCardinality(runs[..n]);
      HashSetOfLast(runs);
    }
  }

  lemma {:induction false} NothingHeld(workers: seq<Worker>, unstartedOnly: bool, x: Hash)
    requires forall w :: 0 <= w < |workers| ==> workers[w].Starting? || workers[w].Ended?
    ensures SumOver(workers, unstartedOnly, x) == 0
  {
    if workers != [] {
      NothingHeld(workers[1..], unstartedOnly, x);
    }
  }

  lemma InitialIsConserved(row: seq<Run>, workerCount: nat, generated: bool)
    requires DistinctHashes(ByHash(row)) && HashSet(ByHash(row)) == HashSet(row)
    ensures Conserved(row, Initial(row, workerCount, generated))
  {
    var s, d := Initial(row, workerCount, generated), ByHash(row);
    forall x ensures Places(s, x) == One(row, x) && StartedOrNot(s, x) == One(row, x) {
      DistinctCount(d, x);
      NothingHeld(s.workers, false, x);
      NothingHeld(s.workers, true, x);
    }
  }

  lemma InitialFits(row: seq<Run>, workerCount: nat, generated: bool)
    requires row != []
    ensures var s := Initial(row, workerCount, generated);
      WorkersFit(row, s) && RowFits(row, s) && PhaseFits(s) && LossFits(row, s)
  {
    WithoutNothing(row);
  }

  lemma InitialIsInvariant(row: seq<Run>, workerCount: nat, generated: bool)
    requires row != []
    ensures Invariant(row, Initial(row, workerCount, generated))
  {
    UpsertAllSets([], row);
    assert HashSet([]) == {};
    DistinctCardinality(ByHash(row));
    InitialIsConserved(row, workerCount, generated);
    InitialFits(row, workerCount, generated);
  }

  lemma StepKeepsWorkerCount(s: State, step: Step)
    requires Perform(s, step).Some?
    ensures |Perform(s, step).value.workers| == |s.workers|
  {
  }

  /** Every behaviour stays within the invariant. */
  lemma {:induction false} BehaviourKeepsInvariant(row: seq<Run>, initial: State, steps: seq<Step>)
    requires WellShaped(row) && Invariant(row, initial)
    requires Behaviour(initial, steps).Some?
    ensures Invariant(row, Behaviour(initial, steps).value)
    ensures |Behaviour(initial, steps).value.workers| == |initial.workers|
    decreases |steps|
  {
    var n := |steps| - 1;
    if n >= 0 {
      BehaviourKeepsInvariant(row, initial, steps[..n]);
      LastStepKeepsInvariant(row, Behaviour(initial, steps[..n]).value, steps[n]);
    }
  }

  lemma LastStepKeepsInvariant(row: seq<Run>, before: State, step: Step)
    requires WellShaped(row) && Invariant(row, before) && Perform(before, step).Some?
    ensures Invariant(row, Perform(before, step).value)
    ensures |Perform(before, step).value.workers| == |before.workers|
  {
    StepKeepsInvariant(row, before, step);
    StepKeepsWorkerCount(before, step);
  }

  lemma ReachableIsInvariant(row: seq<Run>, workerCount: nat, s: State)
    requires row != [] && WellShaped(row)
    requires Reachable(row, workerCount, s)
    ensures Invariant(row, s) && |s.workers| == workerCount
  {
    var generated, steps :| Behaviour(Initial(row, workerCount, generated), steps) == Some(s);
    InitialIsInvariant(row, workerCount, generated);
    BehaviourKeepsInvariant(row, Initial(row, workerCount, generated), steps);
  }
}
