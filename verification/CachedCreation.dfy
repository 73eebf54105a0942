/** Creation under a lock with a check before and a check after taking it, as the community authentication
    does for its sync client and for its sessions, with `stop` closing and forgetting them without the lock.
    Each step is what one thread or coroutine does between two points where others may run. */
module CachedCreation {
  import opened Options

  /** The sync client is one for all wallets; sessions are kept per address. */
  datatype Cache = SyncClient | Sessions

  /** A call for the wallet of an address; `auto` is the initialiser that looks for its wallet first. */
  datatype Call = Call(auto: bool, address: string)

  function KeyOf(kind: Cache, address: string): string {
    if kind.SyncClient? then "" else address
  }

  /** Where a call is; `at` is the length of the history when it got its answer. */
  datatype Thread =
    | Called(auto: bool, key: string)
    | Preparing(key: string)
    | Waiting(key: string)
    | Checking(key: string)
    | Building(key: string)
    | Built(key: string, id: nat)
    | Returned(key: string, got: Option<nat>, at: nat)

  /** A call of `stop`: what it found and closed, and the length of the history then. */
  datatype Stop = Idle | Closing(found: map<string, nat>, since: nat)

  datatype Event = Create(key: string, id: nat) | Store(key: string, id: nat) | Clear

  datatype Shared = Shared(cache: map<string, nat>, history: seq<Event>, nextId: nat)

  datatype State = State(threads: seq<Thread>, lock: Option<nat>, shared: Shared, stops: seq<Stop>)

  datatype Step =
    | Look(t: nat)
    | Prepare(t: nat, found: bool)
    | Acquire(t: nat)
    | Recheck(t: nat)
    | Construct(t: nat, succeeds: bool)
    | Put(t: nat)
    | BeginStop(p: nat)
    | EndStop(p: nat)

  function Initial(kind: Cache, calls: seq<Call>, stopCount: nat): State {
    State(
      seq(|calls|, t requires 0 <= t < |calls| => Called(calls[t].auto, KeyOf(kind, calls[t].address))),
      None, Shared(map[], [], 0), seq(stopCount, _ => Idle))
  }

  function Found(shared: Shared, key: string): Thread
    requires key in shared.cache
  {
    Returned(key, Some(shared.cache[key]), |shared.history|)
  }

  function Nothing(shared: Shared, key: string): Thread {
    Returned(key, None, |shared.history|)
  }

  /** A step of one thread: its next place, the lock (None for free) and what is shared. */
  function ThreadStep(th: Thread, step: Step, lock: Option<nat>, shared: Shared)
    : Option<(Thread, Option<nat>, Shared)>
    requires !step.BeginStop? && !step.EndStop?
  {
    match step
    case Look(_) =>
      if !th.Called? then None
      else if th.key in shared.cache then Some((Found(shared, th.key), lock, shared))
      else Some((if th.auto then Preparing(th.key) else Waiting(th.key), lock, shared))
    case Prepare(_, found) =>
      if !th.Preparing? then None
      else Some((if found then Waiting(th.key) else Nothing(shared, th.key), lock, shared))
    case Acquire(t) =>
      if !th.Waiting? || lock.Some? then None
      else Some((Checking(th.key), Some(t), shared))
    case Recheck(_) =>
      if !th.Checking? then None
      else if th.key in shared.cache then Some((Found(shared, th.key), None, shared))
      else Some((Building(th.key), lock, shared))
    case Construct(_, succeeds) =>
      if !th.Building? then None
      else if succeeds then
        Some((Built(th.key, shared.nextId), lock, shared.(
          history := shared.history + [Create(th.key, shared.nextId)], nextId := shared.nextId + 1)))
      else Some((Nothing(shared, th.key), None, shared))
    case Put(_) =>
      if !th.Built? then None
      else
        var after := shared.(
          cache := shared.cache[th.key := th.id], history := shared.history + [Store(th.key, th.id)]);
        Some((Found(after, th.key), None, after))
  }

  /** Looping over the sessions fails when their number has changed meanwhile; the client is simply unset. */
  predicate Completes(kind: Cache, stop: Stop, shared: Shared)
    requires stop.Closing?
  {
    kind.SyncClient? || |shared.cache| == |stop.found|
  }

  function StopStep(kind: Cache, stop: Stop, step: Step, shared: Shared): Option<(Stop, Shared)>
    requires step.BeginStop? || step.EndStop?
  {
    if step.BeginStop? then
      if !stop.Idle? then None
      else if |shared.cache| == 0 then Some((Idle, shared))
      else Some((Closing(shared.cache, |shared.history|), shared))
    else if !stop.Closing? then None
    else if !Completes(kind, stop, shared) then Some((Idle, shared))
    else Some((Idle, shared.(cache := map[], history := shared.history + [Clear])))
  }

  function Perform(kind: Cache, s: State, step: Step): Option<State> {
    if step.BeginStop? || step.EndStop? then
      if step.p >= |s.stops| then None
      else match StopStep(kind, s.stops[step.p], step, s.shared)
        case None => None
        case Some((stop, shared)) => Some(s.(stops := s.stops[step.p := stop], shared := shared))
    else if step.t >= |s.threads| then None
    else match ThreadStep(s.threads[step.t], step, s.lock, s.shared)
      case None => None
      case Some((th, lock, shared)) =>
        Some(s.(threads := s.threads[step.t := th], lock := lock, shared := shared))
  }

  function Behaviour(kind: Cache, s: State, steps: seq<Step>): Option<State>
    decreases |steps|
  {
    var n := |steps|;
    if n == 0 then Some(s)
    else match Behaviour(kind, s, steps[..n - 1])
      case None => None
      case Some(before) => Perform(kind, before, steps[n - 1])
  }

  ghost predicate Reachable(kind: Cache, calls: seq<Call>, stopCount: nat, s: State) {
    exists steps :: Behaviour(kind, Initial(kind, calls, stopCount), steps) == Some(s)
  }

  function Cached(before: map<string, nat>, e: Event): map<string, nat> {
    match e
    case Create(_, _) => before
    case Store(key, id) => before[key := id]
    case Clear => map[]
  }

  /** What is cached according to the history. */
  function Replay(h: seq<Event>): map<string, nat> {
    if h == [] then map[] else Cached(Replay(h[..|h| - 1]), h[|h| - 1])
  }

  predicate CreatedSinceClear(h: seq<Event>, key: string) {
    h != [] && !h[|h| - 1].Clear? &&
    ((h[|h| - 1].Create? && h[|h| - 1].key == key) || CreatedSinceClear(h[..|h| - 1], key))
  }

  predicate StoredBelow(h: seq<Event>, bound: nat) {
    forall i | 0 <= i < |h| :: h[i].Store? ==> h[i].id < bound
  }

  predicate InOrder(before: seq<Event>, e: Event) {
    match e
    case Create(key, id) => key !in Replay(before) && !CreatedSinceClear(before, key) && StoredBelow(before, id)
    case Store(key, id) => key !in Replay(before) && StoredBelow(before, id)
    case Clear => true
  }

  /** Nothing is created twice without a clear in between, nothing cached is overwritten, and ids are new. */
  predicate Orderly(h: seq<Event>) {
    h == [] || (Orderly(h[..|h| - 1]) && InOrder(h[..|h| - 1], h[|h| - 1]))
  }

  predicate InCritical(th: Thread) {
    th.Checking? || th.Building? || th.Built?
  }

  predicate LockIsRight(threads: seq<Thread>, lock: Option<nat>) {
    (lock.Some? ==> lock.value < |threads|) &&
    forall t | 0 <= t < |threads| :: InCritical(threads[t]) <==> lock == Some(t)
  }

  /** What is known of one thread. */
  predicate ThreadIsRight(th: Thread, shared: Shared) {
    match th
    case Building(key) => key !in shared.cache && !CreatedSinceClear(shared.history, key)
    case Built(key, id) => key !in shared.cache && StoredBelow(shared.history, id) && id < shared.nextId
    case Returned(key, got, at) =>
      at <= |shared.history| &&
      (got.Some? ==> key in Replay(shared.history[..at]) && Replay(shared.history[..at])[key] == got.value)
    case _ => true
  }

  predicate StopIsRight(stop: Stop, shared: Shared) {
    stop.Closing? ==>
      |stop.found| > 0 && stop.since <= |shared.history| && stop.found == Replay(shared.history[..stop.since])
  }

  predicate SharedIsRight(shared: Shared) {
    shared.cache == Replay(shared.history) && Orderly(shared.history) &&
    StoredBelow(shared.history, shared.nextId)
  }

  predicate CreatorHolds(threads: seq<Thread>, lock: Option<nat>, key: string) {
    lock.Some? && lock.value < |threads| && threads[lock.value].Built? && threads[lock.value].key == key
  }

  /** What was created since the last clear is cached, unless its creator still has to store it. */
  ghost predicate CreatedIsCached(threads: seq<Thread>, lock: Option<nat>, shared: Shared) {
    forall key :: CreatedSinceClear(shared.history, key) ==>
      key in shared.cache || CreatorHolds(threads, lock, key)
  }

  predicate ThreadsAreRight(threads: seq<Thread>, shared: Shared) {
    forall t | 0 <= t < |threads| :: ThreadIsRight(threads[t], shared)
  }

  predicate StopsAreRight(stops: seq<Stop>, shared: Shared) {
    forall p | 0 <= p < |stops| :: StopIsRight(stops[p], shared)
  }

  ghost predicate Invariant(s: State) {
    LockIsRight(s.threads, s.lock) &&
    SharedIsRight(s.shared) &&
    ThreadsAreRight(s.threads, s.shared) &&
    StopsAreRight(s.stops, s.shared) &&
    CreatedIsCached(s.threads, s.lock, s.shared)
  }
}
