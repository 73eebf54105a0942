/** Behaviours of the optimizer's queues that show the exceptions named by the theorems to be real. */
module RunQueueWitnesses {
  import opened Options
  import opened OptimizerRuns
  import opened OptimizerSchedule
  import opened RunQueue
  import opened RunQueueTheorems

  // ---------- one step further ----------

  lemma Reads(row: seq<Run>, workerCount: nat, s: State, w: nat) returns (t: State)
    requires Reachable(row, workerCount, s) && w < |s.workers| && s.workers[w].Starting?
    ensures Reachable(row, workerCount, t) && t == WithWorker(s, w, AfterReading(ReadRuns(s.row, s.snapshot)))
  {
    t := ReachableStep(row, workerCount, s, ReadRow(w));
  }

  lemma Checks(row: seq<Run>, workerCount: nat, s: State, w: nat) returns (t: State)
    requires Reachable(row, workerCount, s) && w < |s.workers| && s.workers[w].Looping?
    ensures Reachable(row, workerCount, t)
    ensures var details := s.workers[w].details;
      t == WithWorker(s, w,
        if s.keepRunning then Picking(details) else if w == 0 then Updating({}, details, true) else Ended)
  {
    t := ReachableStep(row, workerCount, s, Check(w));
  }

  lemma Picks(row: seq<Run>, workerCount: nat, s: State, w: nat) returns (t: State)
    requires Reachable(row, workerCount, s) && w < |s.workers| && s.workers[w].Picking? && s.start != []
    requires s.start[0] in s.workers[w].details && s.workers[w].details[s.start[0]] != []
    ensures Reachable(row, workerCount, t)
    ensures var hash, details := s.start[0], s.workers[w].details;
      t == WithWorker(s.(start := s.start[1..]), w, Selected(hash, details[hash], details - {hash}))
  {
    t := ReachableStep(row, workerCount, s, Pick(w));
  }

  lemma Begins(row: seq<Run>, workerCount: nat, s: State, w: nat) returns (t: State)
    requires Reachable(row, workerCount, s) && w < |s.workers| && s.workers[w].Selected?
    ensures Reachable(row, workerCount, t)
    ensures var worker := s.workers[w];
      t == WithWorker(s, w, Executing(worker.hash, worker.details)).(history :=
        s.history.(executed := s.history.executed + [worker.hash]))
  {
    t := ReachableStep(row, workerCount, s, Start(w));
  }

  lemma Finishes(row: seq<Run>, workerCount: nat, s: State, w: nat, fails: bool) returns (t: State)
    requires Reachable(row, workerCount, s) && w < |s.workers| && s.workers[w].Executing? && |s.done| < s.capacity
    ensures Reachable(row, workerCount, t)
    ensures var worker, reported := s.workers[w], s.(done := s.done + [s.workers[w].hash]);
      t == if fails then WithWorker(reported, w, Ended).(history := s.history.(failures := s.history.failures + 1))
        else WithWorker(reported, w, Looping(worker.details, true))
  {
    t := ReachableStep(row, workerCount, s, Finish(w, fails));
  }

  lemma BeginsToDrain(row: seq<Run>, workerCount: nat, s: State) returns (t: State)
    requires Reachable(row, workerCount, s) && |s.workers| > 0 && s.workers[0].Looping? && s.workers[0].iterated
    ensures Reachable(row, workerCount, t)
    ensures t == WithWorker(s, 0, Updating({}, s.workers[0].details, false))
  {
    t := ReachableStep(row, workerCount, s, BeginUpdate(0));
  }

  lemma Collects(row: seq<Run>, workerCount: nat, s: State, hash: Hash) returns (t: State)
    requires Reachable(row, workerCount, s) && |s.workers| > 0 && s.workers[0].Updating? && s.done == [hash]
    ensures Reachable(row, workerCount, t)
    ensures var worker := s.workers[0];
      t == WithWorker(s.(done := []), 0, Updating(worker.collected + {hash}, worker.details, worker.stopping))
  {
    t := ReachableStep(row, workerCount, s, Collect(0));
  }

  lemma EndsCollecting(row: seq<Run>, workerCount: nat, s: State) returns (t: State)
    requires Reachable(row, workerCount, s) && |s.workers| > 0 && s.workers[0].Updating? && s.done == []
    requires s.workers[0].collected != {}
    ensures Reachable(row, workerCount, t)
    ensures var worker := s.workers[0];
      t == WithWorker(s, 0, Writing(worker.collected, worker.details, worker.stopping))
  {
    t := ReachableStep(row, workerCount, s, EndCollect(0));
  }

  lemma Writes(row: seq<Run>, workerCount: nat, s: State) returns (t: State)
    requires Reachable(row, workerCount, s) && |s.workers| > 0 && s.workers[0].Writing?
    ensures Reachable(row, workerCount, t)
    ensures t == WithWorker(Update(s, s.workers[0].collected), 0, AfterUpdate(s.workers[0]))
  {
    t := ReachableStep(row, workerCount, s, Write(0));
  }

  /** A worker that drops the row, having found nothing more to run. */
  lemma Drops(row: seq<Run>, workerCount: nat, s: State, w: nat) returns (t: State)
    requires Reachable(row, workerCount, s) && w < |s.workers| && s.workers[w].Dropping?
    ensures Reachable(row, workerCount, t) && t == WithWorker(s.(row := None), w, Ended)
  {
    t := ReachableStep(row, workerCount, s, Drop(w));
  }

  lemma CleansUp(row: seq<Run>, workerCount: nat, s: State) returns (t: State)
    requires Reachable(row, workerCount, s) && s.supervisor.Supervising? && AllEnded(s.workers)
    ensures Reachable(row, workerCount, t) && t == s.(supervisor := Emptying({}))
  {
    t := ReachableStep(row, workerCount, s, BeginCleanup);
  }

  lemma EmptiesOne(row: seq<Run>, workerCount: nat, s: State, hash: Hash) returns (t: State)
    requires Reachable(row, workerCount, s) && s.supervisor == Emptying({}) && s.done == [hash]
    ensures Reachable(row, workerCount, t) && t == s.(done := [], supervisor := Emptying({hash}))
  {
    t := ReachableStep(row, workerCount, s, SupervisorCollect);
    assert {} + {hash} == {hash};
  }

  /** The supervisor's own update, with what it has collected. */
  lemma Rewrites(row: seq<Run>, workerCount: nat, s: State) returns (t: State)
    requires Reachable(row, workerCount, s) && s.supervisor.Emptying? && s.done == []
    ensures Reachable(row, workerCount, t)
    ensures var collected := s.supervisor.collected;
      t == (if collected == {} then s else Update(s, collected)).(supervisor := Discarding)
  {
    t := ReachableStep(row, workerCount, s, SupervisorWrite);
  }

  lemma FailsToRewrite(row: seq<Run>, workerCount: nat, s: State) returns (t: State)
    requires Reachable(row, workerCount, s) && s.supervisor.Emptying?
    ensures Reachable(row, workerCount, t)
    ensures t == s.(supervisor := Discarding, history := s.history.(
      forgotten := s.history.forgotten + multiset(s.supervisor.collected), failures := s.history.failures + 1))
  {
    t := ReachableStep(row, workerCount, s, SupervisorFail);
  }

  lemma DiscardsOne(row: seq<Run>, workerCount: nat, s: State, hash: Hash) returns (t: State)
    requires Reachable(row, workerCount, s) && s.supervisor.Discarding? && s.start == [hash]
    ensures Reachable(row, workerCount, t)
    ensures t == s.(start := [], history := s.history.(unpicked := s.history.unpicked + multiset{hash}))
  {
    t := ReachableStep(row, workerCount, s, DiscardRun);
  }

  lemma Closes(row: seq<Run>, workerCount: nat, s: State) returns (t: State)
    requires Reachable(row, workerCount, s) && s.supervisor.Discarding? && s.done == [] && s.start == []
    ensures Reachable(row, workerCount, t) && t == s.(supervisor := Closed)
  {
    t := ReachableStep(row, workerCount, s, Close);
  }

  /** A worker whose process dies before the picked run is started. */
  lemma Dies(row: seq<Run>, workerCount: nat, s: State, w: nat) returns (t: State)
    requires Reachable(row, workerCount, s) && w < |s.workers| && s.workers[w].Selected?
    ensures Reachable(row, workerCount, t)
    ensures t == WithWorker(s, w, Ended).(history := s.history.(
      unstarted := s.history.unstarted + multiset{s.workers[w].hash}, failures := s.history.failures + 1))
  {
    assert Perform(s, Fail(w)) == Some(WithWorker(s, w, Ended).(history := Failed(s, s.workers[w])));
    t := ReachableStep(row, workerCount, s, Fail(w));
  }

  lemma FindsNothing(row: seq<Run>, workerCount: nat, s: State, w: nat) returns (t: State)
    requires Reachable(row, workerCount, s) && w < |s.workers| && s.workers[w].Picking? && s.start == []
    ensures Reachable(row, workerCount, t) && t == WithWorker(s, w, Dropping)
  {
    t := ReachableStep(row, workerCount, s, Pick(w));
  }

  // ---------- a schedule of one run ----------

  /** A worker alone that has read a row with distinct hashes, up to its first pick. */
  lemma FirstPick(row: seq<Run>) returns (s: State)
    requires row != [] && DistinctHashes(row)
    ensures Reachable(row, 1, s)
    ensures s == Initial(row, 1, false).(workers := [Picking(DetailsByHash(row))]) && s.start == HashesOf(row)
  {
    ByHashOfDistinct(row);
    ReachableInitial(row, 1, false);
    s := Reads(row, 1, Initial(row, 1, false), 0);
    s := Checks(row, 1, s, 0);
    assert s.workers == [Picking(DetailsByHash(row))];
  }

  /** The first run of a row, executed by a worker alone and reported. */
  lemma FirstFinished(row: seq<Run>, fails: bool) returns (s: State, details: map<Hash, Run>)
    requires row != [] && DistinctHashes(row) && NoEmptyRun(row)
    ensures Reachable(row, 1, s)
    ensures s.row == Some(row) && s.start == HashesOf(row)[1..] && s.done == [RunHash(row[0])] && s.keepRunning
    ensures s.workers == [if fails then Ended else Looping(details, true)] && s.supervisor.Supervising?
    ensures s.history == EMPTY_HISTORY.(executed := [RunHash(row[0])], failures := if fails then 1 else 0)
  {
    assert row[0] in row && RunHash(row[0]) in HashSet(row);
    DetailsFitRow(row, RunHash(row[0]));
    s := FirstPick(row);
    details := DetailsByHash(row) - {RunHash(row[0])};
    s := Picks(row, 1, s, 0);
    s := Begins(row, 1, s, 0);
    s := Finishes(row, 1, s, 0, fails);
  }

  lemma NothingLeft(run: Run)
    ensures Without([run], {RunHash(run)}) == []
  {
  }

  /** A session stopped just after its last run: the final drains leave the row unwritten, so the
      finished run is scheduled again for the next session. */
  lemma StoppedAfterLastRun(run: Run) returns (s: State)
    requires run != []
    ensures Reachable([run], 1, s) && s.supervisor.Closed? && s.history.failures == 0
    ensures s.row == Some([run]) && IsFinished(s, RunHash(run))
  {
    var details;
    s, details := FirstFinished([run], false);
    s := ReachableStep([run], 1, s, Cancel);
    s := Checks([run], 1, s, 0);
    s := Collects([run], 1, s, RunHash(run));
    s := EndsCollecting([run], 1, s);
    NothingLeft(run);
    s := Writes([run], 1, s);
    s := CleansUp([run], 1, s);
    s := Rewrites([run], 1, s);
    s := Closes([run], 1, s);
  }

  /** The same without a stop: the backtesting fails once its run is reported, its worker ends without
      another pick, and the final drain leaves the row unwritten. */
  lemma FailedAfterLastRun(run: Run) returns (s: State)
    requires run != []
    ensures Reachable([run], 1, s) && s.supervisor.Closed? && s.keepRunning && s.history.forgotten == multiset{}
    ensures s.row == Some([run]) && IsFinished(s, RunHash(run))
  {
    var details;
    s, details := FirstFinished([run], true);
    s := CleansUp([run], 1, s);
    s := EmptiesOne([run], 1, s, RunHash(run));
    NothingLeft(run);
    s := Rewrites([run], 1, s);
    s := Closes([run], 1, s);
  }

  // ---------- schedules of two runs ----------

  lemma OneLeft(run: Run, other: Run)
    requires RunHash(run) != RunHash(other)
    ensures Without([run, other], {RunHash(run)}) == [other]
  {
    var completed := {RunHash(run)};
    assert [run, other][1..] == [other] && [other][1..] == [];
    assert Without([other], completed) == [other] + Without([], completed);
  }

  lemma FirstOfTwoCollected(run: Run, other: Run) returns (s: State, details: map<Hash, Run>)
    requires run != [] && other != [] && RunHash(run) != RunHash(other)
    ensures Reachable([run, other], 1, s) && s.supervisor.Supervising? && s.keepRunning && s.history.failures == 0
    ensures s.workers == [Updating({RunHash(run)}, details, false)] && s.done == []
    ensures s.row == Some([run, other]) && s.start == [RunHash(other)]
  {
    s, details := FirstFinished([run, other], false);
    s := BeginsToDrain([run, other], 1, s);
    s := Collects([run, other], 1, s, RunHash(run));
    assert {} + {RunHash(run)} == {RunHash(run)};
  }

  /** Between two runs the first worker takes what is done out of the row and goes on: the row shrinks while
      the session runs, with nothing stopped and nothing failed. */
  lemma DrainedDuringSession(run: Run, other: Run) returns (s: State)
    requires run != [] && other != [] && RunHash(run) != RunHash(other)
    ensures Reachable([run, other], 1, s) && s.supervisor.Supervising? && s.keepRunning && s.history.failures == 0
    ensures |s.workers| == 1 && s.workers[0].Looping? && s.row == Some([other]) && s.start == [RunHash(other)]
  {
    var row, details := [run, other], map[];
    s, details := FirstOfTwoCollected(run, other);
    s := EndsCollecting(row, 1, s);
    OneLeft(run, other);
    s := Writes(row, 1, s);
  }

  /** A final drain that fails after taking a hash: a finished run stays scheduled next to one that was
      never picked. */
  lemma KeptByFailedDrain(run: Run, other: Run) returns (s: State)
    requires run != [] && other != [] && RunHash(run) != RunHash(other)
    ensures Reachable([run, other], 1, s) && s.supervisor.Closed?
    ensures s.row == Some([run, other]) && IsFinished(s, RunHash(run)) && !IsFinished(s, RunHash(other))
    ensures s.history.forgotten == multiset{RunHash(run)}
  {
    var row, details := [run, other], map[];
    s, details := FirstFinished(row, true);
    s := CleansUp(row, 1, s);
    s := EmptiesOne(row, 1, s, RunHash(run));
    assert s.start == [RunHash(other)];
    s := FailsToRewrite(row, 1, s);
    s := DiscardsOne(row, 1, s, RunHash(other));
    s := Closes(row, 1, s);
  }

  lemma FirstIsEmpty(run: Run)
    requires run != []
    ensures var row := [[], run]; var details := DetailsByHash(row);
      DistinctHashes(row) && RunHash([]) in details && details[RunHash([])] == []
  {
    var row: seq<Run> := [[], run];
    var h := RunHash([]);
    assert |h.inputs| == 0 && |RunHash(run).inputs| == |run|;
    assert row[0] in row && h in HashSet(row);
    DetailsFitRow(row, h);
    assert |RunHash(DetailsByHash(row)[h]).inputs| == |DetailsByHash(row)[h]|;
  }

  /** Why an empty run may only be scheduled alone: next to another run, picking it drops the row while
      that other run is still in the start queue. */
  lemma EmptyRunLosesTheNext(run: Run) returns (s: State)
    requires run != []
    ensures Reachable([[], run], 1, s)
    ensures s.row.None? && s.start == [RunHash(run)] && s.history.executed == []
  {
    FirstIsEmpty(run);
    s := FirstPick([[], run]);
    assert s.start == [RunHash([]), RunHash(run)];
    s := ReachableStep([[], run], 1, s, Pick(0));
    assert s.workers == [Dropping] && s.start == [RunHash(run)] && s.history.executed == [];
    s := Drops([[], run], 1, s, 0);
  }

  // ---------- two workers ----------

  lemma TwoPicking(run: Run) returns (s: State)
    requires run != []
    ensures Reachable([run], 2, s)
    ensures s == Initial([run], 2, false).(workers := [Picking(DetailsByHash([run])), Picking(DetailsByHash([run]))])
    ensures s.start == [RunHash(run)]
  {
    ByHashOfDistinct([run]);
    ReachableInitial([run], 2, false);
    s := Reads([run], 2, Initial([run], 2, false), 0);
    s := Checks([run], 2, s, 0);
    s := Reads([run], 2, s, 1);
    s := Checks([run], 2, s, 1);
    assert s.workers == [Picking(DetailsByHash([run])), Picking(DetailsByHash([run]))];
  }

  /** A run can be lost: its worker dies before the backtesting starts, and the other worker, which finds
      the start queue empty, drops the row. */
  lemma LostWithItsWorker(run: Run) returns (s: State)
    requires run != []
    ensures Reachable([run], 2, s) && s.supervisor.Closed?
    ensures s.row == None && !IsFinished(s, RunHash(run)) && RunHash(run) in s.history.unstarted
  {
    assert run in [run] && RunHash(run) in HashSet([run]);
    DetailsFitRow([run], RunHash(run));
    s := TwoPicking(run);
    s := Picks([run], 2, s, 0);
    s := Dies([run], 2, s, 0);
    s := FindsNothing([run], 2, s, 1);
    s := Drops([run], 2, s, 1);
    s := CleansUp([run], 2, s);
    s := Rewrites([run], 2, s);
    s := Closes([run], 2, s);
  }
}
