/** What holds of every run of the cached creation protocol. */
module CachedCreationTheorems {
  import opened Options
  import opened CachedCreation
  import opened CachedCreationSafety

  predicate NoClear(h: seq<Event>, from: nat, to: nat)
    requires to <= |h|
  {
    forall i | from <= i < to :: !h[i].Clear?
  }

  lemma {:induction false} OrderlyAt(h: seq<Event>, i: nat)
    requires Orderly(h) && i < |h|
    ensures InOrder(h[..i], h[i])
  {
    if i < |h| - 1 {
      OrderlyAt(h[..|h| - 1], i);
      assert h[..|h| - 1][..i] == h[..i];
    }
  }

  lemma {:induction false} CreatedSince(h: seq<Event>, i: nat, j: nat)
    requires i < j <= |h| && h[i].Create? && NoClear(h, i, j)
    ensures CreatedSinceClear(h[..j], h[i].key)
    decreases j
  {
    assert h[..j][..j - 1] == h[..j - 1];
    if i < j - 1 {
      CreatedSince(h, i, j - 1);
    }
  }

  /** Between two creations for one key, `stop` has forgotten the first. */
  lemma OneCreationBetweenClears(kind: Cache, calls: seq<Call>, stopCount: nat, s: State, i: nat, j: nat)
    requires Reachable(kind, calls, stopCount, s)
    requires i < j < |s.shared.history|
    requires s.shared.history[i].Create? && s.shared.history[j].Create?
    requires s.shared.history[i].key == s.shared.history[j].key
    ensures !NoClear(s.shared.history, i, j)
  {
    ReachableIsInvariant(kind, calls, stopCount, s);
    OrderlyAt(s.shared.history, j);
    if NoClear(s.shared.history, i, j) {
      CreatedSince(s.shared.history, i, j);
    }
  }

  lemma {:induction false} CachedStays(h: seq<Event>, i: nat, j: nat, key: string)
    requires Orderly(h) && i <= j <= |h| && NoClear(h, i, j) && key in Replay(h[..i])
    ensures key in Replay(h[..j]) && Replay(h[..j])[key] == Replay(h[..i])[key]
    decreases j
  {
    if i < j {
      CachedStays(h, i, j - 1, key);
      OrderlyAt(h, j - 1);
      assert h[..j] == h[..j - 1] + [h[j - 1]];
      OneMore(h[..j - 1], h[j - 1]);
    }
  }

  /** Each call looks under its own address's key. */
  predicate KeysAreOf(kind: Cache, calls: seq<Call>, threads: seq<Thread>) {
    |threads| == |calls| && forall t | 0 <= t < |calls| :: threads[t].key == KeyOf(kind, calls[t].address)
  }

  lemma ThreadKeepsKey(th: Thread, step: Step, lock: Option<nat>, shared: Shared)
    requires !step.BeginStop? && !step.EndStop? && ThreadStep(th, step, lock, shared).Some?
    ensures ThreadStep(th, step, lock, shared).value.0.key == th.key
  {
  }

  lemma {:induction false} KeysStay(kind: Cache, calls: seq<Call>, initial: State, steps: seq<Step>)
    requires KeysAreOf(kind, calls, initial.threads) && Behaviour(kind, initial, steps).Some?
    ensures KeysAreOf(kind, calls, Behaviour(kind, initial, steps).value.threads)
    decreases |steps|
  {
    var n := |steps| - 1;
    if n >= 0 {
      KeysStay(kind, calls, initial, steps[..n]);
      var before := Behaviour(kind, initial, steps[..n]).value;
      if !steps[n].BeginStop? && !steps[n].EndStop? {
        ThreadKeepsKey(before.threads[steps[n].t], steps[n], before.lock, before.shared);
      }
    }
  }

  lemma ReachableKeys(kind: Cache, calls: seq<Call>, stopCount: nat, s: State)
    requires Reachable(kind, calls, stopCount, s)
    ensures KeysAreOf(kind, calls, s.threads)
  {
    var steps :| Behaviour(kind, Initial(kind, calls, stopCount), steps) == Some(s);
    KeysStay(kind, calls, Initial(kind, calls, stopCount), steps);
  }

  predicate HasAnswer(th: Thread) {
    th.Returned? && th.got.Some?
  }

  /** Calls that end with no clear between them get the same object, whichever of them created it: for
      sessions when they are for the same address, for the sync client whatever their addresses. */
  lemma AllCallersSeeTheSame(kind: Cache, calls: seq<Call>, stopCount: nat, s: State, t: nat, u: nat)
    requires Reachable(kind, calls, stopCount, s)
    requires t < |calls| && u < |calls| && t < |s.threads| && u < |s.threads|
    requires kind.SyncClient? || calls[t].address == calls[u].address
    requires HasAnswer(s.threads[t]) && HasAnswer(s.threads[u])
    requires s.threads[t].at <= s.threads[u].at <= |s.shared.history|
    requires NoClear(s.shared.history, s.threads[t].at, s.threads[u].at)
    ensures s.threads[t].got == s.threads[u].got
  {
    ReachableKeys(kind, calls, stopCount, s);
    ReachableIsInvariant(kind, calls, stopCount, s);
    assert ThreadIsRight(s.threads[t], s.shared) && ThreadIsRight(s.threads[u], s.shared);
    CachedStays(s.shared.history, s.threads[t].at, s.threads[u].at, s.threads[t].key);
  }

  /** An object is only ever stored under one key. */
  lemma StoredUnderOneKey(h: seq<Event>, i: nat, j: nat)
    requires Orderly(h) && i < j < |h| && h[i].Store? && h[j].Store?
    ensures h[i].id < h[j].id
  {
    OrderlyAt(h, j);
    assert h[..j][i] == h[i];
  }

  lemma AnswersOfOtherKeys(a: Thread, b: Thread, shared: Shared)
    requires HasAnswer(a) && HasAnswer(b) && a.key != b.key
    requires ThreadIsRight(a, shared) && ThreadIsRight(b, shared) && Orderly(shared.history)
    ensures a.got != b.got
  {
    var h := shared.history;
    var i := CachedWasStored(h[..a.at], a.key);
    var j := CachedWasStored(h[..b.at], b.key);
    assert h[i] == Store(a.key, a.got.value) && h[j] == Store(b.key, b.got.value);
    if i < j {
      StoredUnderOneKey(h, i, j);
    } else if j < i {
      StoredUnderOneKey(h, j, i);
    }
  }

  /** Calls for different addresses never get the same session, whatever was stopped in between. */
  lemma SessionsAreApart(calls: seq<Call>, stopCount: nat, s: State, t: nat, u: nat)
    requires Reachable(Sessions, calls, stopCount, s)
    requires t < |calls| && u < |calls| && t < |s.threads| && u < |s.threads|
    requires calls[t].address != calls[u].address
    requires HasAnswer(s.threads[t]) && HasAnswer(s.threads[u])
    ensures s.threads[t].got != s.threads[u].got
  {
    ReachableKeys(Sessions, calls, stopCount, s);
    ReachableIsInvariant(Sessions, calls, stopCount, s);
    AnswersOfOtherKeys(s.threads[t], s.threads[u], s.shared);
  }

  /** What is cached stays the answer: with no clear since, it is still what everyone will find. */
  lemma AnswerStaysCached(kind: Cache, calls: seq<Call>, stopCount: nat, s: State, t: nat)
    requires Reachable(kind, calls, stopCount, s) && t < |s.threads|
    requires s.threads[t].Returned? && s.threads[t].got.Some?
    requires s.threads[t].at <= |s.shared.history|
    requires NoClear(s.shared.history, s.threads[t].at, |s.shared.history|)
    ensures s.threads[t].key in s.shared.cache && s.shared.cache[s.threads[t].key] == s.threads[t].got.value
  {
    ReachableIsInvariant(kind, calls, stopCount, s);
    var h := s.shared.history;
    assert ThreadIsRight(s.threads[t], s.shared) && h[..|h|] == h;
    CachedStays(h, s.threads[t].at, |h|, s.threads[t].key);
  }

  /** The thread that can go on: the lock's holder, or any unfinished one when the lock is free. */
  lemma NoDeadlock(kind: Cache, calls: seq<Call>, stopCount: nat, s: State, t: nat) returns (step: Step)
    requires Reachable(kind, calls, stopCount, s) && t < |s.threads| && !s.threads[t].Returned?
    ensures !step.BeginStop? && !step.EndStop? && Perform(kind, s, step).Some?
    ensures step.t == t || (s.threads[t].Waiting? && s.lock == Some(step.t))
  {
    ReachableIsInvariant(kind, calls, stopCount, s);
    var u := if s.threads[t].Waiting? && s.lock.Some? then s.lock.value else t;
    assert InCritical(s.threads[u]) <==> s.lock == Some(u);
    match s.threads[u] {
      case Called(_, _) => step := Look(u);
      case Preparing(_) => step := Prepare(u, true);
      case Waiting(_) => step := Acquire(u);
      case Checking(_) => step := Recheck(u);
      case Building(_) => step := Construct(u, true);
      case Built(_, _) => step := Put(u);
      case Returned(_, _, _) =>
    }
  }

  // ---------- one call ----------

  function CallRank(th: Thread): nat {
    match th
    case Called(_, _) => 6
    case Preparing(_) => 5
    case Waiting(_) => 4
    case Checking(_) => 3
    case Building(_) => 2
    case Built(_, _) => 1
    case Returned(_, _, _) => 0
  }

  /** A call goes through its places in order, each step being enabled in one of them only and the lock being
      waited for: it ends after six steps at most. */
  lemma CallStepsInOrder(th: Thread, step: Step, lock: Option<nat>, shared: Shared)
    requires !step.BeginStop? && !step.EndStop?
    ensures ThreadStep(th, step, lock, shared).Some? <==>
      match step
      case Look(_) => th.Called?
      case Prepare(_, _) => th.Preparing?
      case Acquire(_) => th.Waiting? && lock.None?
      case Recheck(_) => th.Checking?
      case Construct(_, _) => th.Building?
      case Put(_) => th.Built?
    ensures ThreadStep(th, step, lock, shared).Some? ==>
      CallRank(ThreadStep(th, step, lock, shared).value.0) < CallRank(th)
  {
  }

  function WithThread(s: State, t: nat, th: Thread): State
    requires t < |s.threads|
  {
    s.(threads := s.threads[t := th])
  }

  /** Once something is cached, a call returns it at once: it neither waits for the lock nor takes it. */
  lemma CachedAnswersAtOnce(kind: Cache, s: State, t: nat)
    requires t < |s.threads| && s.threads[t].Called? && s.threads[t].key in s.shared.cache
    ensures var key := s.threads[t].key;
      Perform(kind, s, Look(t)) == Some(WithThread(s, t, Returned(key, Some(s.shared.cache[key]), |s.shared.history|)))
  {
  }

  /** An initialiser that looks for its wallet itself gives up without one, having changed nothing; with one it
      goes on as any other call. */
  lemma WithoutWallet(kind: Cache, s: State, t: nat)
    requires t < |s.threads| && s.threads[t].Called? && s.threads[t].key !in s.shared.cache
    ensures var key := s.threads[t].key; var looked := Perform(kind, s, Look(t));
      && looked.Some?
      && (!s.threads[t].auto ==> looked.value == WithThread(s, t, Waiting(key)))
      && (s.threads[t].auto ==>
        && Perform(kind, looked.value, Prepare(t, false)) ==
          Some(WithThread(s, t, Returned(key, None, |s.shared.history|)))
        && Perform(kind, looked.value, Prepare(t, true)) == Some(WithThread(s, t, Waiting(key))))
  {
    var key := s.threads[t].key;
    if s.threads[t].auto {
      assert Perform(kind, s, Look(t)) == Some(WithThread(s, t, Preparing(key)));
      assert s.threads[t := Preparing(key)][t := Waiting(key)] == s.threads[t := Waiting(key)];
      var nothing := Returned(key, None, |s.shared.history|);
      assert s.threads[t := Preparing(key)][t := nothing] == s.threads[t := nothing];
    }
  }

  /** A creation that fails leaves nothing behind: the call gets nothing and the lock is free again. */
  lemma FailedCreation(kind: Cache, s: State, t: nat)
    requires t < |s.threads| && s.threads[t].Building?
    ensures Perform(kind, s, Construct(t, false)) ==
      Some(WithThread(s, t, Returned(s.threads[t].key, None, |s.shared.history|)).(lock := None))
  {
  }

  // ---------- one stop ----------

  /** A stop with nothing cached does nothing; another one closes what it finds and then forgets everything,
      but for sessions whose number has changed meanwhile, of which it then forgets none. */
  lemma StopSteps(kind: Cache, s: State, p: nat)
    requires p < |s.stops|
    ensures s.stops[p].Idle? ==>
      Perform(kind, s, BeginStop(p)) == Some(s.(stops := s.stops[p :=
        if s.shared.cache == map[] then Idle else Closing(s.shared.cache, |s.shared.history|)]))
    ensures s.stops[p].Closing? ==>
      Perform(kind, s, BeginStop(p)) == None &&
      Perform(kind, s, EndStop(p)) == Some(s.(stops := s.stops[p := Idle], shared :=
        if kind == Sessions && |s.shared.cache| != |s.stops[p].found| then s.shared
        else s.shared.(cache := map[], history := s.shared.history + [Clear])))
  {
  }

  /** Every key of a sync client state is the same. */
  predicate OneKey(s: State) {
    (forall t | 0 <= t < |s.threads| :: s.threads[t].key == "") && s.shared.cache.Keys <= {""}
  }

  lemma {:induction false} SyncClientHasOneKey(initial: State, steps: seq<Step>)
    requires OneKey(initial) && Behaviour(SyncClient, initial, steps).Some?
    ensures OneKey(Behaviour(SyncClient, initial, steps).value)
    decreases |steps|
  {
    var n := |steps| - 1;
    if n >= 0 {
      SyncClientHasOneKey(initial, steps[..n]);
    }
  }

  predicate SameWhereFound(found: map<string, nat>, cache: map<string, nat>) {
    forall key :: key in found ==> key in cache && cache[key] == found[key]
  }

  lemma SameSizeIsSame(found: map<string, nat>, cache: map<string, nat>)
    requires SameWhereFound(found, cache) && |found| == |cache|
    ensures found == cache
  {
    assert found.Keys <= cache.Keys;
    SubsetOfSameSize(found.Keys, cache.Keys);
  }

  lemma SubsetOfSameSize(a: set<string>, b: set<string>)
    requires a <= b && |a| == |b|
    ensures a == b
  {
    assert |b - a| == |b| - |a|;
  }

  lemma FoundStays(h: seq<Event>, since: nat)
    requires Orderly(h) && since <= |h| && NoClear(h, since, |h|)
    ensures SameWhereFound(Replay(h[..since]), Replay(h))
  {
    forall key | key in Replay(h[..since])
      ensures key in Replay(h) && Replay(h)[key] == Replay(h[..since])[key]
    {
      CachedStays(h, since, |h|, key);
      assert h[..|h|] == h;
    }
  }

  /** What is cached was stored, after the last clear. */
  lemma {:induction false} CachedWasStored(h: seq<Event>, key: string) returns (i: nat)
    requires key in Replay(h)
    ensures i < |h| && h[i] == Store(key, Replay(h)[key]) && NoClear(h, i, |h|)
  {
    var n := |h| - 1;
    if h[n] == Store(key, Replay(h)[key]) {
      i := n;
    } else {
      i := CachedWasStored(h[..n], key);
    }
  }

  /** What is stored after a clear is new. */
  lemma StoredAfterClear(h: seq<Event>, since: nat, key: string)
    requires Orderly(h) && since <= |h| && !NoClear(h, since, |h|)
    requires key in Replay(h)
    ensures key in Replay(h[..since]) ==> Replay(h[..since])[key] != Replay(h)[key]
  {
    var i := CachedWasStored(h, key);
    if key in Replay(h[..since]) {
      var j := CachedWasStored(h[..since], key);
      assert h[j] == Store(key, Replay(h[..since])[key]);
      OrderlyAt(h, i);
      assert h[..i][j] == h[j];
    }
  }

  /** A stop that completes forgets only what it closed itself if and only if no other stop has forgotten
      anything since it began (or nothing is cached any more). */
  lemma StopForgetsWhatItClosed(kind: Cache, calls: seq<Call>, stopCount: nat, s: State, p: nat)
    requires Reachable(kind, calls, stopCount, s) && p < |s.stops|
    requires s.stops[p].Closing? && Completes(kind, s.stops[p], s.shared)
    requires s.stops[p].since <= |s.shared.history|
    ensures (forall key :: key in s.shared.cache ==> key in s.stops[p].found && s.stops[p].found[key] == s.shared.cache[key])
      <==> s.shared.cache == map[] || NoClear(s.shared.history, s.stops[p].since, |s.shared.history|)
  {
    ReachableIsInvariant(kind, calls, stopCount, s);
    var h, since, found := s.shared.history, s.stops[p].since, s.stops[p].found;
    assert StopIsRight(s.stops[p], s.shared);
    if NoClear(h, since, |h|) {
      FoundStays(h, since);
      FoundIsAll(kind, calls, stopCount, s, p);
    } else if s.shared.cache != map[] {
      var key :| key in s.shared.cache;
      StoredAfterClear(h, since, key);
    }
  }

  lemma FoundIsAll(kind: Cache, calls: seq<Call>, stopCount: nat, s: State, p: nat)
    requires Reachable(kind, calls, stopCount, s) && p < |s.stops|
    requires s.stops[p].Closing? && Completes(kind, s.stops[p], s.shared) && |s.stops[p].found| > 0
    requires SameWhereFound(s.stops[p].found, s.shared.cache)
    ensures s.stops[p].found == s.shared.cache
  {
    var found := s.stops[p].found;
    if kind.SyncClient? {
      var initial := Initial(kind, calls, stopCount);
      var steps :| Behaviour(kind, initial, steps) == Some(s);
      SyncClientHasOneKey(initial, steps);
      assert found.Keys != {};
      var key :| key in found;
      assert key == "";
      assert found.Keys == {""} == s.shared.cache.Keys;
    } else {
      SameSizeIsSame(found, s.shared.cache);
    }
  }

  lemma ReachableStep(kind: Cache, calls: seq<Call>, stopCount: nat, s: State, step: Step) returns (after: State)
    requires Reachable(kind, calls, stopCount, s) && Perform(kind, s, step).Some?
    ensures Reachable(kind, calls, stopCount, after) && Perform(kind, s, step) == Some(after)
  {
    var initial := Initial(kind, calls, stopCount);
    var steps :| Behaviour(kind, initial, steps) == Some(s);
    after := Perform(kind, s, step).value;
    assert (steps + [step])[..|steps|] == steps;
    assert Behaviour(kind, initial, steps + [step]) == Some(after);
  }

  lemma Checks(calls: seq<Call>, stopCount: nat, s: State, t: nat) returns (after: State)
    requires Reachable(SyncClient, calls, stopCount, s) && t < |s.threads|
    requires s.threads[t] == Called(false, "") && s.lock == None && s.shared.cache == map[]
    ensures Reachable(SyncClient, calls, stopCount, after)
    ensures after == s.(threads := s.threads[t := Building("")], lock := Some(t))
  {
    after := ReachableStep(SyncClient, calls, stopCount, s, Look(t));
    assert after == s.(threads := s.threads[t := Waiting("")]);
    after := ReachableStep(SyncClient, calls, stopCount, after, Acquire(t));
    assert after == s.(threads := s.threads[t := Checking("")], lock := Some(t));
    after := ReachableStep(SyncClient, calls, stopCount, after, Recheck(t));
    assert after == s.(threads := s.threads[t := Building("")], lock := Some(t));
  }

  /** A thread that creates, alone. */
  lemma Creates(calls: seq<Call>, stopCount: nat, s: State, t: nat) returns (after: State)
    requires Reachable(SyncClient, calls, stopCount, s) && t < |s.threads|
    requires s.threads[t] == Called(false, "") && s.lock == None && s.shared.cache == map[]
    ensures Reachable(SyncClient, calls, stopCount, after)
    ensures var id, h := s.shared.nextId, s.shared.history + [Create("", s.shared.nextId), Store("", s.shared.nextId)];
      after == State(s.threads[t := Returned("", Some(id), |h|)], None, Shared(map["" := id], h, id + 1), s.stops)
  {
    var id := s.shared.nextId;
    var created := s.shared.history + [Create("", id)];
    after := Checks(calls, stopCount, s, t);
    after := ReachableStep(SyncClient, calls, stopCount, after, Construct(t, true));
    assert after == State(s.threads[t := Built("", id)], Some(t), Shared(map[], created, id + 1), s.stops);
    after := ReachableStep(SyncClient, calls, stopCount, after, Put(t));
    assert created + [Store("", id)] == s.shared.history + [Create("", id), Store("", id)];
  }

  lemma OneCreated(call: Call) returns (s: State)
    requires !call.auto
    ensures Reachable(SyncClient, [call, call], 2, s)
    ensures s == State([Returned("", Some(0), 2), Called(false, "")], None,
      Shared(map["" := 0], [Create("", 0), Store("", 0)], 1), [Idle, Idle])
  {
    s := Initial(SyncClient, [call, call], 2);
    assert Behaviour(SyncClient, s, []) == Some(s);
    assert s == State([Called(false, ""), Called(false, "")], None, Shared(map[], [], 0), [Idle, Idle]);
    s := Creates([call, call], 2, s, 0);
  }

  lemma OneStopped(call: Call) returns (s: State)
    requires !call.auto
    ensures Reachable(SyncClient, [call, call], 2, s)
    ensures s == State([Returned("", Some(0), 2), Called(false, "")], None,
      Shared(map[], [Create("", 0), Store("", 0), Clear], 1), [Idle, Closing(map["" := 0], 2)])
  {
    s := OneCreated(call);
    var closing := Closing(map["" := 0], 2);
    var stopped := s;
    s := ReachableStep(SyncClient, [call, call], 2, s, BeginStop(0));
    assert s == stopped.(stops := [closing, Idle]);
    s := ReachableStep(SyncClient, [call, call], 2, s, BeginStop(1));
    assert s == stopped.(stops := [closing, closing]);
    s := ReachableStep(SyncClient, [call, call], 2, s, EndStop(0));
  }

  /** Two overlapping stops: the second, which has closed client 0, is about to forget client 1. */
  lemma OverlappingStops(call: Call) returns (s: State)
    requires !call.auto
    ensures Reachable(SyncClient, [call, call], 2, s)
    ensures s.stops == [Idle, Closing(map["" := 0], 2)] && s.shared.cache == map["" := 1]
    ensures Completes(SyncClient, s.stops[1], s.shared)
  {
    s := OneStopped(call);
    s := Creates([call, call], 2, s, 1);
  }
}
