/** What holds of every run of an automation. */
module AutomationTheorems {
  import opened Automation

  function UpdateTime(tick: Tick): real {
    if tick.arrival.Event? then tick.arrival.updateTime else 0.0
  }

  function TriggerTime(tick: Tick): real {
    if tick.arrival.Event? then tick.arrival.triggerTime else 0.0
  }

  /** The last of the ticks is executed or leaves everything but the outcome as it was. */
  lemma LastTurn(s: Settings, ticks: seq<Tick>) returns (executed: bool)
    requires ticks != []
    ensures var n, before, after := |ticks| - 1, RunOf(s, ticks[..|ticks| - 1]), RunOf(s, ticks);
      if executed then
        before.outcome.Running? && !LoopEnds(s, before.timestamp, ticks[n]) && ticks[n].arrival.Event? &&
        IsDue(s, before.timestamp, TriggerTime(ticks[n])) &&
        after == Run(UpdateTime(ticks[n]), before.yielded + [n], before.calls + Calls(ticks[n], n),
          before.failures + Failures(ticks[n], n), OutcomeOf(ticks[n]))
      else after == before.(outcome := after.outcome)
  {
    var n := |ticks| - 1;
    var before := RunOf(s, ticks[..n]);
    executed := before.outcome.Running? && !LoopEnds(s, before.timestamp, ticks[n]) && ticks[n].arrival.Event? &&
      IsDue(s, before.timestamp, TriggerTime(ticks[n]));
  }

  predicate YieldsAreRight(ticks: seq<Tick>, yielded: seq<nat>) {
    (forall k | 0 <= k < |yielded| :: yielded[k] < |ticks| && ticks[yielded[k]].arrival.Event?) &&
    (forall k, l | 0 <= k < l < |yielded| :: yielded[k] < yielded[l])
  }

  function LastUpdate(ticks: seq<Tick>, yielded: seq<nat>): real {
    if yielded == [] || yielded[|yielded| - 1] >= |ticks| then 0.0
    else UpdateTime(ticks[yielded[|yielded| - 1]])
  }

  lemma {:induction false} YieldsOf(s: Settings, ticks: seq<Tick>)
    ensures YieldsAreRight(ticks, RunOf(s, ticks).yielded)
    ensures RunOf(s, ticks).timestamp == LastUpdate(ticks, RunOf(s, ticks).yielded)
  {
    if ticks != [] {
      YieldsOf(s, ticks[..|ticks| - 1]);
      var executed := LastTurn(s, ticks);
    }
  }

  /** The throttling compares with the execution before. */
  lemma {:induction false} ExecutionIsDue(s: Settings, ticks: seq<Tick>, k: nat)
    requires s.maxTriggerFrequency != 0.0 && k < |RunOf(s, ticks).yielded|
    ensures RunOf(s, ticks).yielded[k] < |ticks|
    ensures TriggerTime(ticks[RunOf(s, ticks).yielded[k]]) - LastUpdate(ticks, RunOf(s, ticks).yielded[..k])
      > s.maxTriggerFrequency
  {
    var n := |ticks| - 1;
    var before, after := RunOf(s, ticks[..n]).yielded, RunOf(s, ticks).yielded;
    YieldsOf(s, ticks[..n]);
    var executed := LastTurn(s, ticks);
    if k < |before| {
      ExecutionIsDue(s, ticks[..n], k);
      assert after[..k] == before[..k];
    } else {
      assert after[..k] == before && before[..k] == before;
    }
  }

  /** The clock never goes back. */
  predicate ClockIsRight(ticks: seq<Tick>) {
    (forall i | 0 <= i < |ticks| :: ticks[i].arrival.Event? ==> TriggerTime(ticks[i]) <= UpdateTime(ticks[i])) &&
    (forall i, j | 0 <= i < j < |ticks| ::
      ticks[i].arrival.Event? && ticks[j].arrival.Event? ==> UpdateTime(ticks[i]) <= TriggerTime(ticks[j]))
  }

  /** Any two executions are more than the maximum frequency apart. */
  lemma {:induction false} ExecutionsAreApart(s: Settings, ticks: seq<Tick>, k: nat, l: nat)
    requires ClockIsRight(ticks) && s.maxTriggerFrequency != 0.0
    requires k < l < |RunOf(s, ticks).yielded|
    ensures var yielded := RunOf(s, ticks).yielded;
      yielded[k] < |ticks| && yielded[l] < |ticks| &&
      UpdateTime(ticks[yielded[l]]) - UpdateTime(ticks[yielded[k]]) > s.maxTriggerFrequency
  {
    YieldsOf(s, ticks);
    ExecutionIsDue(s, ticks, l);
    var yielded := RunOf(s, ticks).yielded;
    assert yielded[..l][|yielded[..l]| - 1] == yielded[l - 1];
    assert yielded[k] <= yielded[l - 1];
    assert UpdateTime(ticks[yielded[k]]) <= UpdateTime(ticks[yielded[l - 1]]);
  }

  /** What an execution of a tick takes, after what was before it: the automation still runs and is not
      stopped, an event has come, a once-only trigger has not executed (or at a clock showing zero), and the
      last execution is further back than the maximum frequency, if there is one. */
  predicate IsExecuted(s: Settings, before: Run, front: seq<Tick>, tick: Tick) {
    var last := LastUpdate(front, before.yielded);
    before.outcome.Running? && !tick.stops && tick.arrival.Event? &&
    (s.triggerOnlyOnce ==> last == 0.0) &&
    (s.maxTriggerFrequency != 0.0 ==> TriggerTime(tick) - last > s.maxTriggerFrequency)
  }

  lemma LastIsExecuted(s: Settings, ticks: seq<Tick>)
    requires ticks != []
    ensures var n := |ticks| - 1;
      n in RunOf(s, ticks).yielded <==> IsExecuted(s, RunOf(s, ticks[..n]), ticks[..n], ticks[n])
  {
    var n := |ticks| - 1;
    YieldsOf(s, ticks[..n]);
    assert n !in RunOf(s, ticks[..n]).yielded;
    var executed := LastTurn(s, ticks);
  }

  /** A tick is executed if and only if it is reached with an event that is due. With the default settings,
      no maximum frequency and no single execution, that is every event reached before a stop. */
  lemma {:induction false} ExecutedExactly(s: Settings, ticks: seq<Tick>, n: nat)
    requires n < |ticks|
    ensures n in RunOf(s, ticks).yielded <==> IsExecuted(s, RunOf(s, ticks[..n]), ticks[..n], ticks[n])
    ensures s == Settings(false, 0.0) ==>
      (n in RunOf(s, ticks).yielded <==>
        RunOf(s, ticks[..n]).outcome.Running? && !ticks[n].stops && ticks[n].arrival.Event?)
  {
    var last := |ticks| - 1;
    if n == last {
      LastIsExecuted(s, ticks);
    } else {
      assert ticks[..last][..n] == ticks[..n];
      ExecutedExactly(s, ticks[..last], n);
      var executed := LastTurn(s, ticks);
    }
  }

  /** Every execution but the last was at a clock showing zero. */
  predicate ZeroBeforeLast(ticks: seq<Tick>, yielded: seq<nat>) {
    forall k | 0 <= k < |yielded| - 1 :: yielded[k] < |ticks| && UpdateTime(ticks[yielded[k]]) == 0.0
  }

  lemma {:induction false} OnceBefore(s: Settings, ticks: seq<Tick>)
    requires s.triggerOnlyOnce
    ensures ZeroBeforeLast(ticks, RunOf(s, ticks).yielded)
  {
    if ticks != [] {
      OnceBefore(s, ticks[..|ticks| - 1]);
      YieldsOf(s, ticks[..|ticks| - 1]);
      var executed := LastTurn(s, ticks);
    }
  }

  /** A once-only trigger executes a second time only if the clock showed zero, so never with a positive clock. */
  lemma OnceOnly(s: Settings, ticks: seq<Tick>)
    requires s.triggerOnlyOnce
    ensures ZeroBeforeLast(ticks, RunOf(s, ticks).yielded)
    ensures (forall i | 0 <= i < |ticks| :: ticks[i].arrival.Event? ==> UpdateTime(ticks[i]) > 0.0) ==>
      |RunOf(s, ticks).yielded| <= 1
  {
    OnceBefore(s, ticks);
    YieldsOf(s, ticks);
    var yielded := RunOf(s, ticks).yielded;
    if |yielded| > 1 {
      assert UpdateTime(ticks[yielded[0]]) == 0.0;
    }
  }

  lemma {:induction false} CallsOf(s: Settings, ticks: seq<Tick>, c: Call)
    ensures c in RunOf(s, ticks).calls <==>
      c.tick in RunOf(s, ticks).yielded && c.tick < |ticks| && c in Calls(ticks[c.tick], c.tick)
  {
    if ticks != [] {
      var n := |ticks| - 1;
      CallsOf(s, ticks[..n], c);
      YieldsOf(s, ticks[..n]);
      var executed := LastTurn(s, ticks);
    }
  }

  /** The actions called are exactly these: all those of an executed tick whose conditions all hold, up to
      one that is interrupted, whatever the others raise. */
  lemma ActionsAreExactly(s: Settings, ticks: seq<Tick>, n: nat, index: nat)
    requires n < |ticks|
    ensures Action(n, index) in RunOf(s, ticks).calls <==>
      n in RunOf(s, ticks).yielded && AllHold(ticks[n].verdicts) &&
      index < |ticks[n].results| && NoneInterrupts(ticks[n].results[..index])
  {
    CallsOf(s, ticks, Action(n, index));
    var actions := ActionCalls(n, ActionsCalled(ticks[n].results));
    assert index < |actions| ==> actions[index] == Action(n, index);
    if index < |ticks[n].results| {
      ActionIsReached(ticks[n].results, index);
    }
  }

  /** The conditions called are exactly these: those of an executed tick up to the first not to hold. */
  lemma ConditionsAreExactly(s: Settings, ticks: seq<Tick>, n: nat, index: nat)
    requires n < |ticks|
    ensures Condition(n, index) in RunOf(s, ticks).calls <==>
      n in RunOf(s, ticks).yielded && index < |ticks[n].verdicts| && AllHold(ticks[n].verdicts[..index])
  {
    CallsOf(s, ticks, Condition(n, index));
    var conditions := ConditionCalls(n, ConditionsCalled(ticks[n].verdicts));
    assert index < |conditions| ==> conditions[index] == Condition(n, index);
    if index < |ticks[n].verdicts| {
      ConditionIsReached(ticks[n].verdicts, index);
    }
  }

  lemma ActionIsReached(results: seq<Result>, index: nat)
    requires index < |results|
    ensures index < ActionsCalled(results) <==> NoneInterrupts(results[..index])
  {
    var n := ActionsCalled(results);
    FirstInterruption(results);
    if index < n && !NoneInterrupts(results) {
      assert results[..index] == results[..n - 1][..index];
    }
    if index >= n {
      assert results[..index][n - 1] == results[n - 1];
    }
  }

  lemma ConditionIsReached(verdicts: seq<Verdict>, index: nat)
    requires index < |verdicts|
    ensures index < ConditionsCalled(verdicts) <==> AllHold(verdicts[..index])
  {
    var n := ConditionsCalled(verdicts);
    FirstNotHolding(verdicts);
    if index < n && !AllHold(verdicts) {
      assert verdicts[..index] == verdicts[..n - 1][..index];
    }
    if index >= n {
      assert verdicts[..index][n - 1] == verdicts[n - 1];
    }
  }

  predicate Before(c: Call, d: Call) {
    c.tick < d.tick ||
    (c.tick == d.tick && (if c.Condition? == d.Condition? then c.index < d.index else c.Condition?))
  }

  predicate InOrder(calls: seq<Call>) {
    forall i, j | 0 <= i < j < |calls| :: Before(calls[i], calls[j])
  }

  lemma OrderExtends(before: seq<Call>, after: seq<Call>, n: nat)
    requires InOrder(before) && forall i | 0 <= i < |before| :: before[i].tick < n
    requires InOrder(after) && forall i | 0 <= i < |after| :: after[i].tick == n
    ensures InOrder(before + after) && forall i | 0 <= i < |before + after| :: (before + after)[i].tick <= n
  {
  }

  /** No call is repeated and all are in order: by tick, conditions first, then by position. */
  lemma {:induction false} CallsAreInOrder(s: Settings, ticks: seq<Tick>)
    ensures InOrder(RunOf(s, ticks).calls)
    ensures forall i | 0 <= i < |RunOf(s, ticks).calls| :: RunOf(s, ticks).calls[i].tick < |ticks|
  {
    if ticks != [] {
      var n := |ticks| - 1;
      CallsAreInOrder(s, ticks[..n]);
      var executed := LastTurn(s, ticks);
      if executed {
        OrderExtends(RunOf(s, ticks[..n]).calls, Calls(ticks[n], n), n);
      }
    }
  }

  lemma {:induction false} FailedCallIsCaught(tick: nat, results: seq<Result>, n: nat, c: Call)
    requires n <= |results|
    ensures c in FailedCalls(tick, results, n) <==>
      c.Action? && c.tick == tick && c.index < n && IsCaught(results[c.index])
  {
    if n > 0 {
      FailedCallIsCaught(tick, results, n - 1, c);
    }
  }

  lemma {:induction false} FailuresOf(s: Settings, ticks: seq<Tick>, c: Call)
    ensures c in RunOf(s, ticks).failures <==>
      c.tick in RunOf(s, ticks).yielded && c.tick < |ticks| && c in Failures(ticks[c.tick], c.tick)
  {
    if ticks != [] {
      var n := |ticks| - 1;
      FailuresOf(s, ticks[..n], c);
      YieldsOf(s, ticks[..n]);
      var executed := LastTurn(s, ticks);
      FailedCallIsCaught(n, ticks[n].results, ActionsCalled(ticks[n].results), c);
    }
  }

  /** The failures logged are exactly the actions that were called and raised. */
  lemma FailuresAreExactly(s: Settings, ticks: seq<Tick>, n: nat, index: nat)
    requires n < |ticks| && index < |ticks[n].results|
    ensures Action(n, index) in RunOf(s, ticks).failures <==>
      Action(n, index) in RunOf(s, ticks).calls &&
      (ticks[n].results[index] == RaisesError || ticks[n].results[index] == RaisesStoppedError)
  {
    FailuresOf(s, ticks, Action(n, index));
    FailedCallIsCaught(n, ticks[n].results, ActionsCalled(ticks[n].results), Action(n, index));
    ActionsAreExactly(s, ticks, n, index);
    ActionIsReached(ticks[n].results, index);
  }

  /** The same but for what actions return or raise; an interruption stays one. */
  predicate SameButFailures(a: Tick, b: Tick) {
    a.(results := []) == b.(results := []) && |a.results| == |b.results| &&
    forall i | 0 <= i < |a.results| :: a.results[i].InterruptsTask? == b.results[i].InterruptsTask?
  }

  lemma {:induction false} SameActionsCalled(a: seq<Result>, b: seq<Result>)
    requires |a| == |b| && forall i | 0 <= i < |a| :: a[i].InterruptsTask? == b[i].InterruptsTask?
    ensures ActionsCalled(a) == ActionsCalled(b) && NoneInterrupts(a) == NoneInterrupts(b)
  {
    if a != [] {
      SameActionsCalled(a[1..], b[1..]);
      assert a == [a[0]] + a[1..] && b == [b[0]] + b[1..];
    }
  }

  /** Whether actions return or raise makes no difference to anything but the log of failures: not to
      what is executed and called afterwards, nor to how the automation ends. */
  lemma {:induction false} FailuresChangeNothing(s: Settings, ticks: seq<Tick>, others: seq<Tick>)
    requires |ticks| == |others| && forall i | 0 <= i < |ticks| :: SameButFailures(ticks[i], others[i])
    ensures RunOf(s, ticks).(failures := []) == RunOf(s, others).(failures := [])
  {
    if ticks != [] {
      var n := |ticks| - 1;
      FailuresChangeNothing(s, ticks[..n], others[..n]);
      assert SameButFailures(ticks[n], others[n]);
      SameActionsCalled(ticks[n].results, others[n].results);
      SameTurn(s, RunOf(s, ticks[..n]), RunOf(s, others[..n]), ticks[n], others[n], n);
    }
  }

  lemma SameTurn(s: Settings, a: Run, b: Run, tick: Tick, other: Tick, n: nat)
    requires a.(failures := []) == b.(failures := []) && tick.(results := []) == other.(results := [])
    requires ActionsCalled(tick.results) == ActionsCalled(other.results)
    requires NoneInterrupts(tick.results) == NoneInterrupts(other.results)
    ensures Turn(s, a, tick, n).(failures := []) == Turn(s, b, other, n).(failures := [])
  {
  }

  /** The first condition that does not hold, or none. */
  predicate FirstFailure(verdicts: seq<Verdict>, verdict: Verdict) {
    exists i | 0 <= i < |verdicts| :: verdicts[i] == verdict && AllHold(verdicts[..i])
  }

  lemma FirstFailureIsCalled(verdicts: seq<Verdict>, verdict: Verdict)
    requires !verdict.Holds?
    ensures FirstFailure(verdicts, verdict) <==>
      !AllHold(verdicts) && verdicts[ConditionsCalled(verdicts) - 1] == verdict
  {
    var n := ConditionsCalled(verdicts);
    FirstNotHolding(verdicts);
    if FirstFailure(verdicts, verdict) {
      var i :| 0 <= i < |verdicts| && verdicts[i] == verdict && AllHold(verdicts[..i]);
      StopsAtFirstFailure(verdicts, i + 1);
    }
    if !AllHold(verdicts) && verdicts[n - 1] == verdict {
      assert AllHold(verdicts[..n - 1]);
    }
  }

  /** How one tick can end an automation. */
  predicate Ends(tick: Tick, outcome: Outcome) {
    match outcome
    case Running => false
    case Finished => false
    case AutomationStopped => tick.arrival.Stopped? || (tick.arrival.Event? && FirstFailure(tick.verdicts, RaisesStopped))
    case Crashed => tick.arrival.Broken? || (tick.arrival.Event? && FirstFailure(tick.verdicts, Raises))
    case Cancelled =>
      tick.arrival.WaitInterrupted? ||
      (tick.arrival.Event? &&
       (FirstFailure(tick.verdicts, Interrupted) || (AllHold(tick.verdicts) && !NoneInterrupts(tick.results))))
  }

  /** What one turn's outcome is, exactly. */
  lemma TurnEnds(s: Settings, r: Run, tick: Tick, n: nat, outcome: Outcome)
    requires r.outcome.Running? && !outcome.Running?
    ensures Turn(s, r, tick, n).outcome == outcome <==>
      if tick.stops || (s.triggerOnlyOnce && r.timestamp != 0.0) then outcome == Finished
      else
        Ends(tick, outcome) &&
        (tick.arrival.Event? && s.maxTriggerFrequency != 0.0 ==> TriggerTime(tick) - r.timestamp > s.maxTriggerFrequency)
  {
    FirstFailureIsCalled(tick.verdicts, Raises);
    FirstFailureIsCalled(tick.verdicts, RaisesStopped);
    FirstFailureIsCalled(tick.verdicts, Interrupted);
  }

  /** Every automation that has ended did so at one tick, the last it looked at, in exactly this way: it was
      stopped or done once, or the wait, the first condition not to hold or an action of an executed event
      ended it. */
  lemma {:induction false} WhyItEnds(s: Settings, ticks: seq<Tick>) returns (n: nat)
    requires !RunOf(s, ticks).outcome.Running?
    ensures n < |ticks| && RunOf(s, ticks[..n]).outcome.Running?
    ensures RunOf(s, ticks) == Turn(s, RunOf(s, ticks[..n]), ticks[n], n)
    ensures var before, outcome := RunOf(s, ticks[..n]), RunOf(s, ticks).outcome;
      if ticks[n].stops || (s.triggerOnlyOnce && LastUpdate(ticks[..n], before.yielded) != 0.0) then outcome == Finished
      else Ends(ticks[n], outcome) && (ticks[n].arrival.Event? ==> n in RunOf(s, ticks).yielded)
  {
    n := |ticks| - 1;
    if RunOf(s, ticks[..n]).outcome.Running? {
      YieldsOf(s, ticks[..n]);
      TurnEnds(s, RunOf(s, ticks[..n]), ticks[n], n, RunOf(s, ticks).outcome);
      var executed := LastTurn(s, ticks);
    } else {
      var last := n;
      n := WhyItEnds(s, ticks[..last]);
      assert ticks[..last][..n] == ticks[..n];
    }
  }
}
