/** An automation: a throttled trigger whose yields run conditions, then actions. Times are reals; what an
    event, a condition or an action does is an input, one tick for each turn of the trigger's loop. */
module Automation {
  /** How a call of a condition ends; a task that is cancelled is interrupted in the call it waits for. */
  datatype Verdict = Holds | Fails | Raises | RaisesStopped | Interrupted

  /** How a call of an action ends; the stopped error is an exception like others there. */
  datatype Result = Returns | RaisesError | RaisesStoppedError | InterruptsTask

  /** How waiting for the next event ended; an event brings the clock before and after it is kept. */
  datatype Arrival = Event(triggerTime: real, updateTime: real) | Stopped | Broken | WaitInterrupted

  /** One turn of the loop: whether `stop` has been called before it, how the wait ends, and what the
      conditions and actions will answer if called. */
  datatype Tick = Tick(stops: bool, arrival: Arrival, verdicts: seq<Verdict>, results: seq<Result>)

  datatype Settings = Settings(triggerOnlyOnce: bool, maxTriggerFrequency: real)

  datatype Call = Condition(tick: nat, index: nat) | Action(tick: nat, index: nat)

  datatype Outcome = Running | Finished | AutomationStopped | Crashed | Cancelled

  /** A run so far: the trigger's timestamp, the ticks it yielded, the calls made for them and, among
      these, the actions logged as failed. */
  datatype Run = Run(timestamp: real, yielded: seq<nat>, calls: seq<Call>, failures: seq<Call>, outcome: Outcome)

  predicate LoopEnds(s: Settings, timestamp: real, tick: Tick) {
    tick.stops || (s.triggerOnlyOnce && timestamp != 0.0)
  }

  predicate IsDue(s: Settings, timestamp: real, triggerTime: real) {
    s.maxTriggerFrequency == 0.0 || triggerTime - timestamp > s.maxTriggerFrequency
  }

  predicate AllHold(verdicts: seq<Verdict>) {
    forall v | v in verdicts :: v.Holds?
  }

  /** The number of conditions called: up to and including the first that does not hold. */
  function ConditionsCalled(verdicts: seq<Verdict>): (n: nat)
    ensures n <= |verdicts|
  {
    if verdicts == [] then 0
    else if verdicts[0].Holds? then 1 + ConditionsCalled(verdicts[1..])
    else 1
  }

  lemma {:induction false} FirstNotHolding(verdicts: seq<Verdict>)
    ensures AllHold(verdicts) ==> ConditionsCalled(verdicts) == |verdicts|
    ensures !AllHold(verdicts) ==> var n := ConditionsCalled(verdicts);
      n > 0 && !verdicts[n - 1].Holds? && AllHold(verdicts[..n - 1])
  {
    if verdicts != [] && verdicts[0].Holds? {
      assert verdicts == [verdicts[0]] + verdicts[1..];
      FirstNotHolding(verdicts[1..]);
      if !AllHold(verdicts) {
        var n := ConditionsCalled(verdicts);
        assert verdicts[..n - 1] == [verdicts[0]] + verdicts[1..][..n - 2];
      }
    }
  }

  function ConditionCalls(tick: nat, n: nat): (r: seq<Call>)
    ensures |r| == n && forall i | 0 <= i < n :: r[i] == Condition(tick, i)
  {
    if n == 0 then [] else ConditionCalls(tick, n - 1) + [Condition(tick, n - 1)]
  }

  function ActionCalls(tick: nat, n: nat): (r: seq<Call>)
    ensures |r| == n && forall i | 0 <= i < n :: r[i] == Action(tick, i)
  {
    if n == 0 then [] else ActionCalls(tick, n - 1) + [Action(tick, n - 1)]
  }

  predicate IsCaught(result: Result) {
    result.RaisesError? || result.RaisesStoppedError?
  }

  predicate NoneInterrupts(results: seq<Result>) {
    forall r | r in results :: !r.InterruptsTask?
  }

  /** The number of actions called: all of them, whatever they raise, unless one is interrupted. */
  function ActionsCalled(results: seq<Result>): (n: nat)
    ensures n <= |results|
  {
    if results == [] then 0
    else if !results[0].InterruptsTask? then 1 + ActionsCalled(results[1..])
    else 1
  }

  lemma {:induction false} FirstInterruption(results: seq<Result>)
    ensures NoneInterrupts(results) ==> ActionsCalled(results) == |results|
    ensures !NoneInterrupts(results) ==> var n := ActionsCalled(results);
      n > 0 && results[n - 1].InterruptsTask? && NoneInterrupts(results[..n - 1])
  {
    if results != [] && !results[0].InterruptsTask? {
      assert results == [results[0]] + results[1..];
      FirstInterruption(results[1..]);
      if !NoneInterrupts(results) {
        var n := ActionsCalled(results);
        assert results[..n - 1] == [results[0]] + results[1..][..n - 2];
      }
    }
  }

  /** The first n actions, those that raise only. */
  function FailedCalls(tick: nat, results: seq<Result>, n: nat): seq<Call> {
    if n == 0 || n > |results| then []
    else FailedCalls(tick, results, n - 1) + if IsCaught(results[n - 1]) then [Action(tick, n - 1)] else []
  }

  /** What a yield leads to. */
  function Calls(tick: Tick, index: nat): seq<Call> {
    ConditionCalls(index, ConditionsCalled(tick.verdicts)) +
    if AllHold(tick.verdicts) then ActionCalls(index, ActionsCalled(tick.results)) else []
  }

  function Failures(tick: Tick, index: nat): seq<Call> {
    if AllHold(tick.verdicts) then FailedCalls(index, tick.results, ActionsCalled(tick.results)) else []
  }

  function OutcomeOfVerdict(verdict: Verdict): Outcome {
    match verdict
    case Raises => Crashed
    case RaisesStopped => AutomationStopped
    case Interrupted => Cancelled
    case _ => Running
  }

  function OutcomeOf(tick: Tick): Outcome {
    if AllHold(tick.verdicts) then (if NoneInterrupts(tick.results) then Running else Cancelled)
    else
      FirstNotHolding(tick.verdicts);
      OutcomeOfVerdict(tick.verdicts[ConditionsCalled(tick.verdicts) - 1])
  }

  function Turn(s: Settings, r: Run, tick: Tick, index: nat): Run {
    if LoopEnds(s, r.timestamp, tick) then r.(outcome := Finished)
    else match tick.arrival
      case Stopped => r.(outcome := AutomationStopped)
      case Broken => r.(outcome := Crashed)
      case WaitInterrupted => r.(outcome := Cancelled)
      case Event(triggerTime, updateTime) =>
        if !IsDue(s, r.timestamp, triggerTime) then r
        else Run(updateTime, r.yielded + [index], r.calls + Calls(tick, index), r.failures + Failures(tick, index),
          OutcomeOf(tick))
  }

  function RunOf(s: Settings, ticks: seq<Tick>): Run {
    if ticks == [] then Run(0.0, [], [], [], Running)
    else
      var n := |ticks| - 1;
      var before := RunOf(s, ticks[..n]);
      if before.outcome.Running? then Turn(s, before, ticks[n], n) else before
  }

  class RunningAutomation {
    const settings: Settings
    var timestamp: real
    var yielded: seq<nat>
    var calls: seq<Call>
    var failures: seq<Call>

    constructor (settings: Settings)
      ensures this.settings == settings
    {
      this.settings := settings;
      timestamp, yielded, calls, failures := 0.0, [], [], [];
    }

    /** `_check_conditions` */
    method CheckConditions(tick: Tick, index: nat) returns (valid: bool, outcome: Outcome)
      modifies this`calls
      ensures calls == old(calls) + ConditionCalls(index, ConditionsCalled(tick.verdicts))
      ensures valid == AllHold(tick.verdicts)
      ensures outcome == if valid then Running else OutcomeOf(tick)
    {
      var i := 0;
      while i < |tick.verdicts|
        invariant i <= |tick.verdicts| && AllHold(tick.verdicts[..i])
        invariant calls == old(calls) + ConditionCalls(index, i)
      {
        var verdict := tick.verdicts[i];
        calls := calls + [Condition(index, i)];
        i := i + 1;
        if !verdict.Holds? {
          StopsAtFirstFailure(tick.verdicts, i);
          return false, OutcomeOfVerdict(verdict);
        }
        assert tick.verdicts[..i] == tick.verdicts[..i - 1] + [verdict];
      }
      assert tick.verdicts[..i] == tick.verdicts;
      FirstNotHolding(tick.verdicts);
      return true, Running;
    }

    /** `_process_actions`: an action that raises is logged and the next one runs; an interruption is no
        exception that is caught. */
    method ProcessActions(tick: Tick, index: nat) returns (outcome: Outcome)
      modifies this`calls, this`failures
      ensures calls == old(calls) + ActionCalls(index, ActionsCalled(tick.results))
      ensures failures == old(failures) + FailedCalls(index, tick.results, ActionsCalled(tick.results))
      ensures outcome == if NoneInterrupts(tick.results) then Running else Cancelled
    {
      var i := 0;
      while i < |tick.results|
        invariant i <= |tick.results| && NoneInterrupts(tick.results[..i])
        invariant calls == old(calls) + ActionCalls(index, i)
        invariant failures == old(failures) + FailedCalls(index, tick.results, i)
      {
        var result := tick.results[i];
        calls := calls + [Action(index, i)];
        i := i + 1;
        if IsCaught(result) {
          failures := failures + [Action(index, i - 1)];
        } else if result.InterruptsTask? {
          StopsAtInterruption(tick.results, i);
          return Cancelled;
        }
        assert tick.results[..i] == tick.results[..i - 1] + [result];
      }
      assert tick.results[..i] == tick.results;
      FirstInterruption(tick.results);
      return Running;
    }

    function Current(outcome: Outcome): Run
      reads this
    {
      Run(timestamp, yielded, calls, failures, outcome)
    }

    /** A yield, and what is done for it. */
    method Execute(tick: Tick, index: nat) returns (outcome: Outcome)
      requires tick.arrival.Event?
      modifies this
      ensures Current(outcome) == Run(tick.arrival.updateTime, old(yielded) + [index],
        old(calls) + Calls(tick, index), old(failures) + Failures(tick, index), OutcomeOf(tick))
    {
      timestamp := tick.arrival.updateTime;
      yielded := yielded + [index];
      outcome := React(tick, index);
    }

    /** The body of the loop over the yields. */
    method React(tick: Tick, index: nat) returns (outcome: Outcome)
      modifies this`calls, this`failures
      ensures calls == old(calls) + Calls(tick, index) && failures == old(failures) + Failures(tick, index)
      ensures outcome == OutcomeOf(tick)
    {
      var valid: bool;
      valid, outcome := CheckConditions(tick, index);
      if valid {
        outcome := ProcessActions(tick, index);
      }
    }

    /** One turn of the loop of `next_execution`, and of the loop over its yields if it yields. */
    method OneTurn(tick: Tick, index: nat) returns (outcome: Outcome)
      modifies this
      ensures Current(outcome) == Turn(settings, old(Current(Running)), tick, index)
    {
      outcome := Running;
      if tick.stops || (settings.triggerOnlyOnce && timestamp != 0.0) {
        outcome := Finished;
      } else if tick.arrival.Stopped? {
        outcome := AutomationStopped;
      } else if tick.arrival.Broken? {
        outcome := Crashed;
      } else if tick.arrival.WaitInterrupted? {
        outcome := Cancelled;
      } else if settings.maxTriggerFrequency == 0.0 ||
                tick.arrival.triggerTime - timestamp > settings.maxTriggerFrequency {
        outcome := Execute(tick, index);
      }
    }

    /** `_run_automation` over `next_execution` */
    method RunAutomation(ticks: seq<Tick>) returns (outcome: Outcome)
      modifies this
      ensures Current(outcome) == RunOf(settings, ticks)
    {
      timestamp, yielded, calls, failures, outcome := 0.0, [], [], [], Running;
      var i := 0;
      while i < |ticks| && outcome.Running?
        invariant i <= |ticks| && Current(outcome) == RunOf(settings, ticks[..i])
      {
        OneTurnMore(settings, ticks, i);
        outcome := OneTurn(ticks[i], i);
        i := i + 1;
      }
      if outcome.Running? {
        assert ticks[..i] == ticks;
      } else {
        EndedStaysEnded(settings, ticks, i);
      }
    }
  }

  lemma {:induction false} StopsAtFirstFailure(verdicts: seq<Verdict>, i: nat)
    requires 0 < i <= |verdicts| && AllHold(verdicts[..i - 1]) && !verdicts[i - 1].Holds?
    ensures ConditionsCalled(verdicts) == i && !AllHold(verdicts)
  {
    assert verdicts[i - 1] in verdicts;
    if i > 1 {
      assert verdicts[..i - 1] == [verdicts[0]] + verdicts[1..][..i - 2];
      StopsAtFirstFailure(verdicts[1..], i - 1);
    }
  }

  lemma {:induction false} StopsAtInterruption(results: seq<Result>, i: nat)
    requires 0 < i <= |results| && NoneInterrupts(results[..i - 1]) && results[i - 1].InterruptsTask?
    ensures ActionsCalled(results) == i && !NoneInterrupts(results)
  {
    assert results[i - 1] in results;
    if i > 1 {
      assert results[..i - 1] == [results[0]] + results[1..][..i - 2];
      StopsAtInterruption(results[1..], i - 1);
    }
  }

  lemma OneTurnMore(s: Settings, ticks: seq<Tick>, i: nat)
    requires i < |ticks| && RunOf(s, ticks[..i]).outcome.Running?
    ensures RunOf(s, ticks[..i + 1]) == Turn(s, RunOf(s, ticks[..i]), ticks[i], i)
  {
    assert ticks[..i + 1][..i] == ticks[..i];
  }

  lemma {:induction false} EndedStaysEnded(s: Settings, ticks: seq<Tick>, i: nat)
    requires i <= |ticks| && !RunOf(s, ticks[..i]).outcome.Running?
    ensures RunOf(s, ticks) == RunOf(s, ticks[..i])
    decreases |ticks|
  {
    if i == |ticks| {
      assert ticks[..i] == ticks;
    } else {
      var n := |ticks| - 1;
      assert ticks[..n][..i] == ticks[..i];
      EndedStaysEnded(s, ticks[..n], i);
    }
  }
}
