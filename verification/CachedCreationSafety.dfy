/** The cache protocol's invariant holds in every interleaving of any number of calls and stops, and what
    follows from it. */
module CachedCreationSafety {
  import opened Options
  import opened CachedCreation

  /** The shared part only ever gets one more event, or stays. */
  predicate Grows(before: Shared, after: Shared) {
    before.nextId <= after.nextId &&
    (after == before ||
     (|after.history| == |before.history| + 1 && after.history[..|before.history|] == before.history))
  }

  lemma PrefixOfPrefix(before: Shared, after: Shared, n: nat)
    requires Grows(before, after) && n <= |before.history|
    ensures n <= |after.history| && after.history[..n] == before.history[..n]
  {
    if after != before {
      assert after.history[..|before.history|][..n] == after.history[..n];
    }
  }

  /** What is known of a thread that does not hold the lock outlives any step of another. */
  lemma OtherThreadStays(th: Thread, before: Shared, after: Shared)
    requires ThreadIsRight(th, before) && Grows(before, after) && !InCritical(th)
    ensures ThreadIsRight(th, after)
  {
    if th.Returned? {
      PrefixOfPrefix(before, after, th.at);
    }
  }

  lemma StopStays(stop: Stop, before: Shared, after: Shared)
    requires StopIsRight(stop, before) && Grows(before, after)
    ensures StopIsRight(stop, after)
  {
    if stop.Closing? {
      PrefixOfPrefix(before, after, stop.since);
    }
  }

  lemma StopsStay(stops: seq<Stop>, before: Shared, after: Shared)
    requires StopsAreRight(stops, before) && Grows(before, after)
    ensures StopsAreRight(stops, after)
  {
    forall p | 0 <= p < |stops|
      ensures StopIsRight(stops[p], after)
    {
      StopStays(stops[p], before, after);
    }
  }

  lemma OneMore(h: seq<Event>, e: Event)
    ensures (h + [e])[..|h|] == h
    ensures Replay(h + [e]) == Cached(Replay(h), e)
    ensures Orderly(h + [e]) <==> Orderly(h) && InOrder(h, e)
  {
    assert (h + [e])[..|h|] == h;
  }

  lemma CreatedSinceClearOfOneMore(h: seq<Event>, e: Event, key: string)
    ensures CreatedSinceClear(h + [e], key) <==>
      !e.Clear? && ((e.Create? && e.key == key) || CreatedSinceClear(h, key))
  {
    assert (h + [e])[..|h|] == h;
  }

  lemma AnswerIsRight(shared: Shared, key: string)
    requires SharedIsRight(shared)
    ensures key in shared.cache ==> ThreadIsRight(Found(shared, key), shared)
  {
    assert shared.history[..|shared.history|] == shared.history;
  }

  lemma PutIsRight(th: Thread, step: Step, lock: Option<nat>, shared: Shared)
    requires step.Put? && th.Built? && SharedIsRight(shared) && ThreadIsRight(th, shared)
    ensures var (next, _, after) := ThreadStep(th, step, lock, shared).value;
      ThreadIsRight(next, after) && SharedIsRight(after)
  {
    var (_, _, after) := ThreadStep(th, step, lock, shared).value;
    OneMore(shared.history, Store(th.key, th.id));
    AnswerIsRight(after, th.key);
  }

  lemma ConstructIsRight(th: Thread, step: Step, lock: Option<nat>, shared: Shared)
    requires step.Construct? && th.Building? && SharedIsRight(shared) && ThreadIsRight(th, shared)
    ensures var (next, _, after) := ThreadStep(th, step, lock, shared).value;
      ThreadIsRight(next, after) && SharedIsRight(after)
  {
    OneMore(shared.history, Create(th.key, shared.nextId));
  }

  /** What leaves the shared part as it is. */
  lemma LookIsRight(th: Thread, step: Step, lock: Option<nat>, shared: Shared)
    requires step.Look? || step.Prepare? || step.Acquire? || step.Recheck?
    requires ThreadStep(th, step, lock, shared).Some? && SharedIsRight(shared)
    requires th.Checking? && th.key !in shared.cache ==> !CreatedSinceClear(shared.history, th.key)
    ensures var (next, _, after) := ThreadStep(th, step, lock, shared).value;
      ThreadIsRight(next, after) && after == shared
  {
    AnswerIsRight(shared, th.key);
  }

  lemma ThreadStaysRight(th: Thread, step: Step, lock: Option<nat>, shared: Shared)
    requires !step.BeginStop? && !step.EndStop? && ThreadStep(th, step, lock, shared).Some?
    requires SharedIsRight(shared) && ThreadIsRight(th, shared)
    requires th.Checking? && th.key !in shared.cache ==> !CreatedSinceClear(shared.history, th.key)
    ensures var (next, _, after) := ThreadStep(th, step, lock, shared).value;
      ThreadIsRight(next, after) && SharedIsRight(after)
  {
    if step.Put? {
      PutIsRight(th, step, lock, shared);
    } else if step.Construct? {
      ConstructIsRight(th, step, lock, shared);
    } else {
      LookIsRight(th, step, lock, shared);
    }
  }

  lemma OthersStay(threads: seq<Thread>, t: nat, lock: Option<nat>, before: Shared, after: Shared, next: Thread)
    requires t < |threads| && LockIsRight(threads, lock) && ThreadsAreRight(threads, before)
    requires Grows(before, after) && ThreadIsRight(next, after)
    requires after == before || lock == Some(t)
    ensures ThreadsAreRight(threads[t := next], after)
  {
    var all := threads[t := next];
    forall u | 0 <= u < |all|
      ensures ThreadIsRight(all[u], after)
    {
      if u != t && after != before {
        OtherThreadStays(threads[u], before, after);
      }
    }
  }

  lemma {:induction false} ThreadStepKeepsInvariant(kind: Cache, s: State, step: Step)
    requires Invariant(s) && !step.BeginStop? && !step.EndStop? && Perform(kind, s, step).Some?
    ensures Invariant(Perform(kind, s, step).value)
  {
    var t := step.t;
    var th := s.threads[t];
    var (next, lock, after) := ThreadStep(th, step, s.lock, s.shared).value;
    ThreadStaysRight(th, step, s.lock, s.shared);
    OthersStay(s.threads, t, s.lock, s.shared, after, next);
    StopsStay(s.stops, s.shared, after);
  }

  lemma ClearKeepsThread(th: Thread, before: Shared, after: Shared)
    requires ThreadIsRight(th, before)
    requires after == before.(cache := map[], history := before.history + [Clear])
    ensures ThreadIsRight(th, after)
  {
    if InCritical(th) {
      CreatedSinceClearOfOneMore(before.history, Clear, th.key);
    } else {
      OtherThreadStays(th, before, after);
    }
  }

  lemma ClearKeepsThreads(threads: seq<Thread>, before: Shared, after: Shared)
    requires ThreadsAreRight(threads, before)
    requires after == before.(cache := map[], history := before.history + [Clear])
    ensures ThreadsAreRight(threads, after)
  {
    forall t | 0 <= t < |threads|
      ensures ThreadIsRight(threads[t], after)
    {
      ClearKeepsThread(threads[t], before, after);
    }
  }

  lemma StopStaysRight(kind: Cache, stop: Stop, step: Step, shared: Shared)
    requires SharedIsRight(shared) && StopIsRight(stop, shared)
    requires (step.BeginStop? || step.EndStop?) && StopStep(kind, stop, step, shared).Some?
    ensures var (next, after) := StopStep(kind, stop, step, shared).value;
      StopIsRight(next, after) && SharedIsRight(after) && Grows(shared, after) &&
      (after == shared || after == shared.(cache := map[], history := shared.history + [Clear]))
  {
    assert shared.history[..|shared.history|] == shared.history;
    OneMore(shared.history, Clear);
  }

  lemma {:induction false} StopStepKeepsInvariant(kind: Cache, s: State, step: Step)
    requires Invariant(s) && (step.BeginStop? || step.EndStop?) && Perform(kind, s, step).Some?
    ensures Invariant(Perform(kind, s, step).value)
  {
    var (stop, after) := StopStep(kind, s.stops[step.p], step, s.shared).value;
    StopStaysRight(kind, s.stops[step.p], step, s.shared);
    StopsStay(s.stops, s.shared, after);
    if after != s.shared {
      ClearKeepsThreads(s.threads, s.shared, after);
    }
  }

  lemma {:induction false} BehaviourKeepsInvariant(kind: Cache, initial: State, steps: seq<Step>)
    requires Invariant(initial) && Behaviour(kind, initial, steps).Some?
    ensures Invariant(Behaviour(kind, initial, steps).value)
    decreases |steps|
  {
    var n := |steps| - 1;
    if n >= 0 {
      BehaviourKeepsInvariant(kind, initial, steps[..n]);
      var before := Behaviour(kind, initial, steps[..n]).value;
      if steps[n].BeginStop? || steps[n].EndStop? {
        StopStepKeepsInvariant(kind, before, steps[n]);
      } else {
        ThreadStepKeepsInvariant(kind, before, steps[n]);
      }
    }
  }

  lemma ReachableIsInvariant(kind: Cache, calls: seq<Call>, stopCount: nat, s: State)
    requires Reachable(kind, calls, stopCount, s)
    ensures Invariant(s)
  {
    var initial := Initial(kind, calls, stopCount);
    var steps :| Behaviour(kind, initial, steps) == Some(s);
    BehaviourKeepsInvariant(kind, initial, steps);
  }
}
