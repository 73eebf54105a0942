/** The multi-process optimizer for one optimizer id: a start queue filled from the schedule row, worker
    processes that read the row or the generated schedule, pick hashes, execute them and report them to a bounded done queue,
    worker 0 that drains that queue into the row, and the supervising process that cleans up at the end.
    Every step below is one atomic action of one process; a behaviour is any sequence of enabled steps. */
module RunQueue {
  import opened Options
  import opened OptimizerRuns
  import opened OptimizerSchedule

  datatype Worker =
    | Starting
    | Looping(details: map<Hash, Run>, iterated: bool)
    | Picking(details: map<Hash, Run>)
    | Selected(hash: Hash, run: Run, details: map<Hash, Run>)
    | Executing(hash: Hash, details: map<Hash, Run>)
    | Updating(collected: set<Hash>, details: map<Hash, Run>, stopping: bool)
    | Writing(collected: set<Hash>, details: map<Hash, Run>, stopping: bool)
    | Dropping
    | Ended

  datatype Supervisor = Supervising | Emptying(collected: set<Hash>) | Discarding | Closed

  /** Where hashes went once they left the queues, and what happened to the row. */
  datatype History = History(
    executed: seq<Hash>,          // backtestings started, in order
    drained: multiset<Hash>,      // handed to a database update
    forgotten: multiset<Hash>,    // reported as done, but no database update was made with it
    unstarted: multiset<Hash>,    // picked, but the backtesting never started
    killed: multiset<Hash>,       // started, but never reported as done
    unpicked: multiset<Hash>,     // still in the start queue when it was emptied at cleanup
    erased: set<Hash>,            // removed from the row by a database update
    failures: nat)

  datatype State = State(
    row: Option<seq<Run>>,
    start: seq<Hash>,
    done: seq<Hash>,
    capacity: nat,
    workers: seq<Worker>,
    keepRunning: bool,
    supervisor: Supervisor,
    history: History,
    snapshot: Option<seq<Run>>)   // the schedule of a session that generated it, kept in memory

  datatype Step =
    | ReadRow(w: nat)
    | Check(w: nat)
    | Pick(w: nat)
    | Start(w: nat)
    | Finish(w: nat, fails: bool)
    | BeginUpdate(w: nat)
    | Collect(w: nat)
    | EndCollect(w: nat)
    | Write(w: nat)
    | Drop(w: nat)
    | Fail(w: nat)
    | Cancel
    | BeginCleanup
    | SupervisorCollect
    | SupervisorWrite
    | SupervisorFail
    | DiscardRun
    | DiscardDone
    | Close

  const EMPTY_HISTORY := History([], multiset{}, multiset{}, multiset{}, multiset{}, multiset{}, {}, 0)

  /** The queues as created from a row, before any of the workers has read it; `generated` tells whether the
      session has generated that row itself. */
  function Initial(row: seq<Run>, workerCount: nat, generated: bool): State {
    var start := HashesOf(ByHash(row));
    State(Some(row), start, [], |start|, seq(workerCount, _ => Starting), true, Supervising, EMPTY_HISTORY,
      if generated then Some(row) else None)
  }

  /** `_get_run_data`: the generated schedule where there is one, whatever has become of the row. */
  function ReadRuns(row: Option<seq<Run>>, snapshot: Option<seq<Run>>): Option<seq<Run>> {
    if snapshot.Some? then snapshot else row
  }

  function WithWorker(s: State, w: nat, worker: Worker): State
    requires w < |s.workers|
  {
    s.(workers := s.workers[w := worker])
  }

  function AfterReading(runs: Option<seq<Run>>): Worker {
    if runs.Some? && runs.value != [] then Looping(DetailsByHash(runs.value), false) else Dropping
  }

  predicate IsWritten(row: Option<seq<Run>>, collected: set<Hash>) {
    row.Some? && var left := Without(row.value, collected); left != [] && left[0] != []
  }

  /** A database update with the collected hashes. */
  function Update(s: State, collected: set<Hash>): State {
    var row := Rewritten(s.row, collected);
    s.(row := row, history := s.history.(
      drained := s.history.drained + multiset(collected),
      erased := if IsWritten(s.row, collected) then s.history.erased + collected else s.history.erased))
  }

  /** A worker that stops for good on an error or because its process dies. */
  function Failed(s: State, worker: Worker): History {
    var h := s.history.(failures := s.history.failures + 1);
    match worker
    case Selected(hash, _, _) => h.(unstarted := h.unstarted + multiset{hash})
    case Executing(hash, _) => h.(killed := h.killed + multiset{hash})
    case Updating(collected, _, _) => h.(forgotten := h.forgotten + multiset(collected))
    case Writing(collected, _, _) => h.(forgotten := h.forgotten + multiset(collected))
    case _ => h
  }

  function WorkerStep(s: State, step: Step, w: nat): Option<State>
    requires w < |s.workers|
  {
    var worker := s.workers[w];
    match step
    case ReadRow(_) =>
      if !worker.Starting? then None else Some(WithWorker(s, w, AfterReading(ReadRuns(s.row, s.snapshot))))
    case Check(_) =>
      if !worker.Looping? then None
      else if s.keepRunning then Some(WithWorker(s, w, Picking(worker.details)))
      else if w == 0 then Some(WithWorker(s, w, Updating({}, worker.details, true)))
      else Some(WithWorker(s, w, Ended))
    case Pick(_) =>
      if !worker.Picking? then None
      else if s.start == [] then Some(WithWorker(s, w, Dropping))
      else
        var hash := s.start[0];
        var popped := s.(start := s.start[1..]);
        if hash in worker.details && worker.details[hash] != [] then
          Some(WithWorker(popped, w, Selected(hash, worker.details[hash], worker.details - {hash})))
        else
          Some(WithWorker(popped, w, Dropping).(history :=
            s.history.(unstarted := s.history.unstarted + multiset{hash})))
    case Start(_) =>
      if !worker.Selected? then None
      else Some(WithWorker(s, w, Executing(worker.hash, worker.details)).(history :=
        s.history.(executed := s.history.executed + [worker.hash])))
    case Finish(_, fails) =>
      if !worker.Executing? || |s.done| >= s.capacity then None
      else
        var reported := s.(done := s.done + [worker.hash]);
        if fails then Some(WithWorker(reported, w, Ended).(history :=
          s.history.(failures := s.history.failures + 1)))
        else Some(WithWorker(reported, w, Looping(worker.details, true)))
    case BeginUpdate(_) =>
      if w != 0 || !worker.Looping? || !worker.iterated then None
      else Some(WithWorker(s, w, Updating({}, worker.details, false)))
    case Collect(_) =>
      if !worker.Updating? || s.done == [] then None
      else Some(WithWorker(s.(done := s.done[1..]), w,
        Updating(worker.collected + {s.done[0]}, worker.details, worker.stopping)))
    case EndCollect(_) =>
      if !worker.Updating? || s.done != [] then None
      else if worker.collected == {} then Some(WithWorker(s, w, AfterUpdate(worker)))
      else Some(WithWorker(s, w, Writing(worker.collected, worker.details, worker.stopping)))
    case Write(_) =>
      if !worker.Writing? then None
      else Some(WithWorker(Update(s, worker.collected), w, AfterUpdate(worker)))
    case Drop(_) =>
      if !worker.Dropping? then None else Some(WithWorker(s.(row := None), w, Ended))
    case Fail(_) =>
      if worker.Ended? then None else Some(WithWorker(s, w, Ended).(history := Failed(s, worker)))
    case _ => None
  }

  function AfterUpdate(worker: Worker): Worker
    requires worker.Updating? || worker.Writing?
  {
    if worker.stopping then Ended else Looping(worker.details, false)
  }

  predicate AllEnded(workers: seq<Worker>) {
    forall w :: 0 <= w < |workers| ==> workers[w].Ended?
  }

  function SupervisorStep(s: State, step: Step): Option<State> {
    match step
    case Cancel => Some(s.(keepRunning := false))
    case BeginCleanup =>
      if s.supervisor.Supervising? && AllEnded(s.workers) then Some(s.(supervisor := Emptying({}))) else None
    case SupervisorCollect =>
      if !s.supervisor.Emptying? || s.done == [] then None
      else Some(s.(done := s.done[1..], supervisor := Emptying(s.supervisor.collected + {s.done[0]})))
    case SupervisorWrite =>
      if !s.supervisor.Emptying? || s.done != [] then None
      else if s.supervisor.collected == {} then Some(s.(supervisor := Discarding))
      else Some(Update(s, s.supervisor.collected).(supervisor := Discarding))
    case SupervisorFail =>
      if !s.supervisor.Emptying? then None
      else Some(s.(supervisor := Discarding, history := s.history.(
        forgotten := s.history.forgotten + multiset(s.supervisor.collected),
        failures := s.history.failures + 1)))
    case DiscardRun =>
      if !s.supervisor.Discarding? || s.start == [] then None
      else Some(s.(start := s.start[1..], history := s.history.(
        unpicked := s.history.unpicked + multiset{s.start[0]})))
    case DiscardDone =>
      if !s.supervisor.Discarding? || s.done == [] then None
      else Some(s.(done := s.done[1..], history := s.history.(
        forgotten := s.history.forgotten + multiset{s.done[0]})))
    case Close =>
      if !s.supervisor.Discarding? || s.start != [] || s.done != [] then None
      else Some(s.(supervisor := Closed))
    case _ => None
  }

  predicate IsWorkerStep(step: Step) {
    step.ReadRow? || step.Check? || step.Pick? || step.Start? || step.Finish? || step.BeginUpdate?
    || step.Collect? || step.EndCollect? || step.Write? || step.Drop? || step.Fail?
  }

  /** The state after a step, or None when the step is not enabled. */
  function Perform(s: State, step: Step): Option<State> {
    if IsWorkerStep(step) then
      if step.w < |s.workers| then WorkerStep(s, step, step.w) else None
    else SupervisorStep(s, step)
  }

  /** The state after a whole behaviour, or None when one of its steps is not enabled. */
  function Behaviour(s: State, steps: seq<Step>): Option<State>
    decreases |steps|
  {
    var n := |steps|;
    if n == 0 then Some(s)
    else match Behaviour(s, steps[..n - 1])
      case None => None
      case Some(before) => Perform(before, steps[n - 1])
  }

  /** Reachable in a session on a row, be it stored before or generated by the session itself. */
  ghost predicate Reachable(row: seq<Run>, workerCount: nat, s: State) {
    exists generated, steps :: Behaviour(Initial(row, workerCount, generated), steps) == Some(s)
  }
}
