/** What every behaviour of the optimizer's queues keeps, however its processes interleave, fail,
    are killed or are cancelled. */
module RunQueueSafety {
  import opened Options
  import opened OptimizerRuns
  import opened RunQueue

  // ---------- where each hash is ----------

  function Count(b: bool): nat {
    if b then 1 else 0
  }

  /** How many times a worker holds hash `x`: all of what it holds, or only what it has picked without
      having started its backtesting yet. */
  function Held(worker: Worker, unstartedOnly: bool, x: Hash): nat {
    match worker
    case Selected(hash, _, _) => Count(hash == x)
    case Executing(hash, _) => Count(!unstartedOnly && hash == x)
    case Updating(collected, _, _) => Count(!unstartedOnly && x in collected)
    case Writing(collected, _, _) => Count(!unstartedOnly && x in collected)
    case _ => 0
  }

  function HeldBySupervisor(supervisor: Supervisor, x: Hash): nat {
    Count(supervisor.Emptying? && x in supervisor.collected)
  }

  function SumOver(workers: seq<Worker>, unstartedOnly: bool, x: Hash): nat {
    if workers == [] then 0 else Held(workers[0], unstartedOnly, x) + SumOver(workers[1..], unstartedOnly, x)
  }

  /** How many times hash `x` occurs over the places that are not workers. */
  function Elsewhere(s: State, x: Hash): nat {
    var h := s.history;
    multiset(s.start)[x] + multiset(s.done)[x] + HeldBySupervisor(s.supervisor, x)
    + h.drained[x] + h.forgotten[x] + h.unstarted[x] + h.killed[x] + h.unpicked[x]
  }

  /** How many times hash `x` was started, or is in a place for hashes that were not. */
  function StartedElsewhere(s: State, x: Hash): nat {
    var h := s.history;
    multiset(h.executed)[x] + multiset(s.start)[x] + h.unstarted[x] + h.unpicked[x]
  }

  function Places(s: State, x: Hash): nat {
    Elsewhere(s, x) + SumOver(s.workers, false, x)
  }

  function StartedOrNot(s: State, x: Hash): nat {
    StartedElsewhere(s, x) + SumOver(s.workers, true, x)
  }

  function One(row: seq<Run>, x: Hash): nat {
    Count(x in HashSet(row))
  }

  /** Every scheduled hash is in exactly one place and no other hash is anywhere. */
  ghost predicate Conserved(row: seq<Run>, s: State) {
    forall x :: Places(s, x) == One(row, x) && StartedOrNot(s, x) == One(row, x)
  }

  lemma {:induction false} SumOverUpdate(workers: seq<Worker>, unstartedOnly: bool, w: nat, worker: Worker, x: Hash)
    requires w < |workers|
    ensures SumOver(workers[w := worker], unstartedOnly, x) + Held(workers[w], unstartedOnly, x) == SumOver(workers, unstartedOnly, x) + Held(worker, unstartedOnly, x)
  {
    if w > 0 {
      SumOverUpdate(workers[1..], unstartedOnly, w - 1, worker, x);
      assert workers[w := worker][1..] == workers[1..][w - 1 := worker];
    } else {
      assert workers[w := worker][1..] == workers[1..];
    }
  }

  lemma {:induction false} SumOverHolds(workers: seq<Worker>, unstartedOnly: bool, w: nat, x: Hash)
    requires w < |workers|
    ensures Held(workers[w], unstartedOnly, x) <= SumOver(workers, unstartedOnly, x)
  {
    if w > 0 {
      SumOverHolds(workers[1..], unstartedOnly, w - 1, x);
    }
  }

  lemma HeadOfQueue(queue: seq<Hash>, x: Hash)
    requires queue != []
    ensures multiset(queue)[x] == Count(x == queue[0]) + multiset(queue[1..])[x]
  {
    assert queue == [queue[0]] + queue[1..];
  }

  lemma WorkerMove(s: State, t: State, w: nat, x: Hash)
    requires w < |s.workers| == |t.workers| && t.workers == s.workers[w := t.workers[w]]
    requires Elsewhere(t, x) + Held(t.workers[w], false, x) == Elsewhere(s, x) + Held(s.workers[w], false, x)
    requires StartedElsewhere(t, x) + Held(t.workers[w], true, x)
      == StartedElsewhere(s, x) + Held(s.workers[w], true, x)
    ensures Places(t, x) == Places(s, x) && StartedOrNot(t, x) == StartedOrNot(s, x)
  {
    SumOverUpdate(s.workers, false, w, t.workers[w], x);
    SumOverUpdate(s.workers, true, w, t.workers[w], x);
  }

  /** A step moves hash `x` between places: it neither creates nor loses it. */
  predicate Kept(s: State, t: State, x: Hash) {
    Places(t, x) == Places(s, x) && StartedOrNot(t, x) == StartedOrNot(s, x)
  }

  lemma PoppedLacks(s: State, x: Hash)
    requires s.start != []
    ensures var popped := s.(start := s.start[1..]);
      && Elsewhere(popped, x) + Count(x == s.start[0]) == Elsewhere(s, x)
      && StartedElsewhere(popped, x) + Count(x == s.start[0]) == StartedElsewhere(s, x)
  {
    HeadOfQueue(s.start, x);
  }

  /** A worker that changes without letting go of anything. */
  lemma WorkerStays(s: State, w: nat, worker: Worker, x: Hash)
    requires w < |s.workers|
    requires Held(worker, false, x) == Held(s.workers[w], false, x)
    requires Held(worker, true, x) == Held(s.workers[w], true, x)
    ensures Kept(s, WithWorker(s, w, worker), x)
  {
    WorkerMove(s, WithWorker(s, w, worker), w, x);
  }

  lemma {:induction false} PickKeeps(s: State, step: Step, x: Hash)
    requires step.Pick?
    requires step.w < |s.workers| && WorkerStep(s, step, step.w).Some?
    ensures Kept(s, WorkerStep(s, step, step.w).value, x)
  {
    if s.start == [] {
      WorkerStays(s, step.w, Dropping, x);
    } else {
      PopKeeps(s, step.w, x);
    }
  }

  lemma FoundRunKeeps(s: State, w: nat, run: Run, details: map<Hash, Run>, x: Hash)
    requires w < |s.workers| && s.workers[w].Picking? && s.start != []
    ensures Kept(s, WithWorker(s.(start := s.start[1..]), w, Selected(s.start[0], run, details)), x)
  {
    PoppedLacks(s, x);
    WorkerMove(s, WithWorker(s.(start := s.start[1..]), w, Selected(s.start[0], run, details)), w, x);
  }

  lemma MissingRunKeeps(s: State, w: nat, x: Hash)
    requires w < |s.workers| && s.workers[w].Picking? && s.start != []
    ensures Kept(s, WithWorker(s.(start := s.start[1..]), w, Dropping).(history :=
      s.history.(unstarted := s.history.unstarted + multiset{s.start[0]})), x)
  {
    var popped := s.(start := s.start[1..]);
    var t := popped.(history := s.history.(unstarted := s.history.unstarted + multiset{s.start[0]}));
    PoppedLacks(s, x);
    WorkerStays(t, w, Dropping, x);
  }

  lemma PopKeeps(s: State, w: nat, x: Hash)
    requires w < |s.workers| && s.workers[w].Picking? && s.start != []
    ensures Kept(s, WorkerStep(s, Pick(w), w).value, x)
  {
    var details, hash := s.workers[w].details, s.start[0];
    if hash in details && details[hash] != [] {
      FoundRunKeeps(s, w, details[hash], details - {hash}, x);
    } else {
      MissingRunKeeps(s, w, x);
    }
  }

  lemma StartKeeps(s: State, step: Step, x: Hash)
    requires step.Start?
    requires step.w < |s.workers| && WorkerStep(s, step, step.w).Some?
    ensures Kept(s, WorkerStep(s, step, step.w).value, x)
  {
    WorkerMove(s, WorkerStep(s, step, step.w).value, step.w, x);
  }

  lemma FinishKeeps(s: State, step: Step, x: Hash)
    requires step.Finish?
    requires step.w < |s.workers| && WorkerStep(s, step, step.w).Some?
    ensures Kept(s, WorkerStep(s, step, step.w).value, x)
  {
    WorkerMove(s, WorkerStep(s, step, step.w).value, step.w, x);
  }

  lemma CollectKeeps(s: State, step: Step, x: Hash)
    requires step.Collect?
    requires step.w < |s.workers| && WorkerStep(s, step, step.w).Some?
    requires s.workers[step.w].Updating? && s.done != [] && s.done[0] !in s.workers[step.w].collected
    ensures Kept(s, WorkerStep(s, step, step.w).value, x)
  {
    HeadOfQueue(s.done, x);
    WorkerMove(s, WorkerStep(s, step, step.w).value, step.w, x);
  }

  lemma UpdateAdds(s: State, collected: set<Hash>, x: Hash)
    ensures Elsewhere(Update(s, collected), x) == Elsewhere(s, x) + Count(x in collected)
    ensures StartedElsewhere(Update(s, collected), x) == StartedElsewhere(s, x)
  {
  }

  lemma WriteKeeps(s: State, step: Step, x: Hash)
    requires step.Write?
    requires step.w < |s.workers| && WorkerStep(s, step, step.w).Some?
    ensures Kept(s, WorkerStep(s, step, step.w).value, x)
  {
    UpdateAdds(s, s.workers[step.w].collected, x);
    WorkerMove(s, WorkerStep(s, step, step.w).value, step.w, x);
  }

  lemma FailedAdds(s: State, worker: Worker, x: Hash)
    ensures var t := s.(history := Failed(s, worker));
      && Elsewhere(t, x) == Elsewhere(s, x) + Held(worker, false, x)
      && StartedElsewhere(t, x) == StartedElsewhere(s, x) + Held(worker, true, x)
  {
  }

  lemma FailKeeps(s: State, step: Step, x: Hash)
    requires step.Fail?
    requires step.w < |s.workers| && WorkerStep(s, step, step.w).Some?
    ensures Kept(s, WorkerStep(s, step, step.w).value, x)
  {
    FailedAdds(s, s.workers[step.w], x);
    WorkerMove(s, WorkerStep(s, step, step.w).value, step.w, x);
  }

  lemma ReadKeeps(s: State, step: Step, x: Hash)
    requires step.ReadRow? || step.BeginUpdate? || step.Check?
    requires step.w < |s.workers| && WorkerStep(s, step, step.w).Some?
    ensures Kept(s, WorkerStep(s, step, step.w).value, x)
  {
    WorkerStays(s, step.w, WorkerStep(s, step, step.w).value.workers[step.w], x);
  }

  lemma EndCollectKeeps(s: State, step: Step, x: Hash)
    requires step.EndCollect?
    requires step.w < |s.workers| && WorkerStep(s, step, step.w).Some?
    ensures Kept(s, WorkerStep(s, step, step.w).value, x)
  {
    WorkerStays(s, step.w, WorkerStep(s, step, step.w).value.workers[step.w], x);
  }

  lemma DropKeeps(s: State, step: Step, x: Hash)
    requires step.Drop?
    requires step.w < |s.workers| && WorkerStep(s, step, step.w).Some?
    ensures Kept(s, WorkerStep(s, step, step.w).value, x)
  {
    WorkerStays(s.(row := None), step.w, Ended, x);
  }

  lemma SupervisorReleases(s: State, x: Hash)
    requires s.supervisor.Emptying?
    ensures Elsewhere(s.(supervisor := Discarding), x) + Count(x in s.supervisor.collected) == Elsewhere(s, x)
    ensures StartedElsewhere(s.(supervisor := Discarding), x) == StartedElsewhere(s, x)
  {
  }

  lemma SupervisorWriteKeeps(s: State, x: Hash)
    requires SupervisorStep(s, SupervisorWrite).Some?
    ensures Kept(s, SupervisorStep(s, SupervisorWrite).value, x)
  {
    var collected := s.supervisor.collected;
    if collected == {} {
      SupervisorReleases(s, x);
    } else {
      UpdateAdds(s, collected, x);
      SupervisorReleases(Update(s, collected), x);
    }
  }

  lemma CleanupKeeps(s: State, step: Step, x: Hash)
    requires step.Cancel? || step.BeginCleanup? || step.SupervisorFail? || step.Close?
    requires SupervisorStep(s, step).Some?
    ensures Kept(s, SupervisorStep(s, step).value, x)
  {
  }

  lemma SupervisorCollectKeeps(s: State, x: Hash)
    requires SupervisorStep(s, SupervisorCollect).Some? && s.done[0] !in s.supervisor.collected
    ensures Kept(s, SupervisorStep(s, SupervisorCollect).value, x)
  {
    HeadOfQueue(s.done, x);
  }

  lemma DiscardRunKeeps(s: State, x: Hash)
    requires SupervisorStep(s, DiscardRun).Some?
    ensures Kept(s, SupervisorStep(s, DiscardRun).value, x)
  {
    HeadOfQueue(s.start, x);
  }

  lemma DiscardDoneKeeps(s: State, x: Hash)
    requires SupervisorStep(s, DiscardDone).Some?
    ensures Kept(s, SupervisorStep(s, DiscardDone).value, x)
  {
    HeadOfQueue(s.done, x);
  }

  lemma StepKeeps(s: State, step: Step, x: Hash)
    requires Perform(s, step).Some?
    requires step.Collect? ==> s.done[0] !in s.workers[step.w].collected
    requires step.SupervisorCollect? ==> s.done[0] !in s.supervisor.collected
    ensures Kept(s, Perform(s, step).value, x)
  {
    match step
    case ReadRow(_) => ReadKeeps(s, step, x);
    case Check(_) => ReadKeeps(s, step, x);
    case Pick(_) => PickKeeps(s, step, x);
    case Start(_) => StartKeeps(s, step, x);
    case Finish(_, _) => FinishKeeps(s, step, x);
    case Collect(_) => CollectKeeps(s, step, x);
    case Write(_) => WriteKeeps(s, step, x);
    case Fail(_) => FailKeeps(s, step, x);
    case BeginUpdate(_) => ReadKeeps(s, step, x);
    case EndCollect(_) => EndCollectKeeps(s, step, x);
    case Drop(_) => DropKeeps(s, step, x);
    case SupervisorWrite => SupervisorWriteKeeps(s, x);
    case SupervisorCollect => SupervisorCollectKeeps(s, x);
    case DiscardRun => DiscardRunKeeps(s, x);
    case DiscardDone => DiscardDoneKeeps(s, x);
    case _ => CleanupKeeps(s, step, x);
  }
}
