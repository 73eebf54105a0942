/** The queue and row operations as one process performs them when no other process interferes, each
    proved against the functions the concurrent model steps with. */
module OptimizerQueues {
  import opened Options
  import opened OptimizerRuns
  import opened OptimizerSchedule
  import opened RunQueue

  function SetOf(queue: seq<Hash>): set<Hash> {
    set x | x in queue
  }

  /** How one iteration of a worker's loop ends. */
  datatype Iteration = Ran(hash: Hash, run: Run) | NoMoreRun | FailedToStart

  class RunQueues {
    var row: Option<seq<Run>>
    var runsSchedule: Option<seq<Run>>
    var startQueue: seq<Hash>
    var doneQueue: seq<Hash>
    var capacity: nat

    constructor (row: Option<seq<Run>>)
      ensures this.row == row && runsSchedule == None && startQueue == [] && doneQueue == [] && capacity == 0
    {
      this.row, runsSchedule, startQueue, doneQueue, capacity := row, None, [], [], 0;
    }

    /** Fills the start queue with the hashes of the generated schedule or else of the row, each once, in
        order of first appearance. Fails when there is nothing to run. */
    method CreateRunQueues() returns (created: bool)
      modifies this`startQueue, this`doneQueue, this`capacity
      ensures var runs := if runsSchedule.Some? then runsSchedule else row;
        && (created <==> runs.Some? && runs.value != [])
        && (created ==> forall workers: nat :: var initial := Initial(runs.value, workers, runsSchedule.Some?);
          startQueue == initial.start && doneQueue == initial.done && capacity == initial.capacity)
      ensures !created ==> unchanged(this)
    {
      var runs := ReadRuns(row, runsSchedule);
      if runs.None? || runs.value == [] {
        return false;
      }
      var byHash := ByHash(runs.value);
      startQueue, doneQueue, capacity := [], [], |byHash|;
      for i := 0 to |byHash|
        invariant startQueue == HashesOf(byHash)[..i]
        invariant doneQueue == [] && capacity == |byHash|
      {
        startQueue := startQueue + [RunHash(byHash[i])];
      }
      return true;
    }

    /** Takes the next hash and pops its run from the worker's own dictionary. */
    method SynchronizedPickRun(details: map<Hash, Run>)
      returns (picked: Option<(Hash, Option<Run>)>, left: map<Hash, Run>)
      modifies this`startQueue
      ensures old(startQueue) == [] ==> picked == None && startQueue == [] && left == details
      ensures old(startQueue) != [] ==>
        var hash := old(startQueue)[0];
        && picked == Some((hash, if hash in details then Some(details[hash]) else None))
        && startQueue == old(startQueue)[1..]
        && left == details - {hash}
    {
      if startQueue == [] {
        return None, details;
      }
      var hash := startQueue[0];
      startQueue := startQueue[1..];
      var run := if hash in details then Some(details[hash]) else None;
      return Some((hash, run)), details - {hash};
    }

    /** One iteration: a picked run with inputs is executed and its hash reported, whatever the outcome
        of the backtesting; `starts` tells whether a backtesting id could be reserved for it. */
    method RunSingleIteration(details: map<Hash, Run>, starts: bool)
      returns (outcome: Iteration, left: map<Hash, Run>)
      requires |doneQueue| < capacity
      modifies this`startQueue, this`doneQueue
      ensures outcome.Ran? <==>
        (starts && old(startQueue) != [] && old(startQueue)[0] in details && details[old(startQueue)[0]] != [])
      ensures outcome.Ran? ==> outcome.hash == old(startQueue)[0] && outcome.run == details[outcome.hash]
      ensures doneQueue == if outcome.Ran? then old(doneQueue) + [outcome.hash] else old(doneQueue)
      ensures startQueue == if old(startQueue) == [] then [] else old(startQueue)[1..]
      ensures outcome.FailedToStart? <==>
        (!starts && old(startQueue) != [] && old(startQueue)[0] in details && details[old(startQueue)[0]] != [])
      ensures left == if old(startQueue) == [] then details else details - {old(startQueue)[0]}
    {
      var picked;
      picked, left := SynchronizedPickRun(details);
      if picked.Some? && picked.value.1.Some? && picked.value.1.value != [] {
        if !starts {
          return FailedToStart, left;
        }
        doneQueue := doneQueue + [picked.value.0];
        return Ran(picked.value.0, picked.value.1.value), left;
      }
      return NoMoreRun, left;
    }

    /** Empties the done queue, then erases what it held from the row unless that would leave no run. */
    method UpdateRunsFromDoneQueue()
      modifies this`doneQueue, this`row
      ensures doneQueue == []
      ensures row == Drained(old(row), SetOf(old(doneQueue)))
    {
      var completed: set<Hash> := {};
      while doneQueue != []
        invariant row == old(row)
        invariant completed + SetOf(doneQueue) == SetOf(old(doneQueue))
        decreases |doneQueue|
      {
        assert doneQueue == [doneQueue[0]] + doneQueue[1..];
        completed := completed + {doneQueue[0]};
        doneQueue := doneQueue[1..];
      }
      assert completed == SetOf(old(doneQueue));
      if completed == {} || row.None? {
        return;
      }
      var runs := Without(row.value, completed);
      if runs != [] && runs[0] != [] {
        row := Some(runs);
      }
    }

    /** Stores generated runs, merged by hash over an existing row, and keeps in memory what it stored. */
    method SaveRunSchedule(runs: seq<Run>)
      modifies this`row, this`runsSchedule
      ensures row == runsSchedule == Saved(old(row), runs)
    {
      var stored := runs;
      if row.Some? {
        var merged := MergeInto([], NonEmptyRuns(row.value));
        stored := MergeInto(merged, NonEmptyRuns(runs));
      }
      row, runsSchedule := Some(stored), Some(stored);
    }
  }

  method MergeInto(merged: seq<Run>, added: seq<Run>) returns (r: seq<Run>)
    ensures r == UpsertAll(merged, added)
  {
    r := merged;
    for i := 0 to |added|
      invariant r == UpsertAll(merged, added[..i])
    {
      assert added[..i + 1][..i] == added[..i];
      r := Upsert(r, added[i]);
    }
    assert added[..|added|] == added;
  }

  function Collects(n: nat): (steps: seq<Step>)
    ensures |steps| == n
  {
    if n == 0 then [] else Collects(n - 1) + [SupervisorCollect]
  }

  /** The supervisor's collecting steps, taken until the done queue is empty and followed by its write,
      are that one update. */
  lemma {:induction false} SupervisorDrainIsOneUpdate(s: State)
    requires s.supervisor == Emptying({})
    ensures var collected := Behaviour(s, Collects(|s.done|));
      && collected.Some?
      && Perform(collected.value, SupervisorWrite).Some?
      && Perform(collected.value, SupervisorWrite).value.row == Drained(s.row, SetOf(s.done))
      && Perform(collected.value, SupervisorWrite).value.done == []
  {
    CollectsAll(s, |s.done|);
    assert s.done[..|s.done|] == s.done;
  }

  lemma CollectsOne(t: State, head: Hash, collected: set<Hash>)
    requires t.done != [] && t.done[0] == head && t.supervisor == Emptying(collected)
    ensures Perform(t, SupervisorCollect)
      == Some(t.(done := t.done[1..], supervisor := Emptying(collected + {head})))
  {
  }

  lemma {:induction false} CollectsAll(s: State, n: nat)
    requires s.supervisor == Emptying({}) && n <= |s.done|
    ensures Behaviour(s, Collects(n))
      == Some(s.(done := s.done[n..], supervisor := Emptying(SetOf(s.done[..n]))))
  {
    if n == 0 {
      assert SetOf(s.done[..0]) == {};
    } else {
      var before := s.(done := s.done[n - 1..], supervisor := Emptying(SetOf(s.done[..n - 1])));
      CollectsAll(s, n - 1);
      assert Collects(n)[..n - 1] == Collects(n - 1);
      CollectsOne(before, s.done[n - 1], SetOf(s.done[..n - 1]));
      SetOfNext(s.done, n - 1);
      assert before.done[1..] == s.done[n..];
    }
  }

  function WorkerCollects(n: nat): (steps: seq<Step>)
    ensures |steps| == n
  {
    if n == 0 then [] else WorkerCollects(n - 1) + [Collect(0)]
  }

  /** The first worker collecting, with some of the done queue left. */
  function Collecting(s: State, done: seq<Hash>, collected: set<Hash>, details: map<Hash, Run>): State
    requires s.workers != []
  {
    WithWorker(s.(done := done), 0, Updating(collected, details, false))
  }

  lemma WorkerCollectsOne(s: State, done: seq<Hash>, collected: set<Hash>, details: map<Hash, Run>)
    requires s.workers != [] && done != []
    ensures Perform(Collecting(s, done, collected, details), Collect(0))
      == Some(Collecting(s, done[1..], collected + {done[0]}, details))
  {
    var t := Collecting(s, done, collected, details);
    assert Perform(t, Collect(0)) == WorkerStep(t, Collect(0), 0);
    assert t.workers[0 := Updating(collected + {done[0]}, details, false)]
      == s.workers[0 := Updating(collected + {done[0]}, details, false)];
  }

  lemma {:induction false} WorkerCollectsAll(s: State, details: map<Hash, Run>, n: nat)
    requires s.workers != [] && n <= |s.done|
    ensures Behaviour(Collecting(s, s.done, {}, details), WorkerCollects(n))
      == Some(Collecting(s, s.done[n..], SetOf(s.done[..n]), details))
  {
    if n == 0 {
      assert SetOf(s.done[..0]) == {};
    } else {
      WorkerCollectsAll(s, details, n - 1);
      assert WorkerCollects(n)[..n - 1] == WorkerCollects(n - 1);
      WorkerCollectsOne(s, s.done[n - 1..], SetOf(s.done[..n - 1]), details);
      SetOfNext(s.done, n - 1);
      assert s.done[n - 1..][1..] == s.done[n..];
    }
  }

  lemma WorkerWrites(s: State, collected: set<Hash>, details: map<Hash, Run>)
    requires s.workers != [] && collected != {}
    ensures var ended := Perform(Collecting(s, [], collected, details), EndCollect(0));
      && ended.Some?
      && var written := Perform(ended.value, Write(0));
      && written.Some?
      && written.value.row == Rewritten(s.row, collected) && written.value.done == []
      && written.value.workers == s.workers[0 := Looping(details, false)]
  {
    var writing := WithWorker(s.(done := []), 0, Writing(collected, details, false));
    assert Perform(Collecting(s, [], collected, details), EndCollect(0)) == Some(writing) by {
      assert Collecting(s, [], collected, details).workers[0 := writing.workers[0]] == writing.workers;
    }
    assert writing.workers[0 := Looping(details, false)] == s.workers[0 := Looping(details, false)];
  }

  /** Between two iterations the first worker can always drain, and its own fine-grained steps are that one
      update too, after which it goes on as before. */
  lemma {:induction false} WorkerDrainIsOneUpdate(s: State)
    requires s.workers != [] && s.workers[0].Looping? && s.workers[0].iterated && s.done != []
    ensures var begun := Perform(s, BeginUpdate(0));
      && begun.Some?
      && var collected := Behaviour(begun.value, WorkerCollects(|s.done|));
      && collected.Some?
      && var ended := Perform(collected.value, EndCollect(0));
      && ended.Some?
      && var written := Perform(ended.value, Write(0));
      && written.Some?
      && written.value.row == Drained(s.row, SetOf(s.done)) && written.value.done == []
      && written.value.workers == s.workers[0 := Looping(s.workers[0].details, false)]
  {
    var details := s.workers[0].details;
    BeginsToCollect(s);
    WorkerCollectsAll(s, details, |s.done|);
    assert s.done[..|s.done|] == s.done && s.done[|s.done|..] == [] && s.done[0] in SetOf(s.done);
    WorkerWrites(s, SetOf(s.done), details);
  }

  lemma BeginsToCollect(s: State)
    requires s.workers != [] && s.workers[0].Looping? && s.workers[0].iterated
    ensures Perform(s, BeginUpdate(0)) == Some(Collecting(s, s.done, {}, s.workers[0].details))
  {
  }

  lemma SetOfNext(queue: seq<Hash>, n: nat)
    requires n < |queue|
    ensures SetOf(queue[..n + 1]) == SetOf(queue[..n]) + {queue[n]}
  {
    assert queue[..n + 1] == queue[..n] + [queue[n]];
  }
}
