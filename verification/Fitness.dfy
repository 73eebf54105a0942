/** Scores of optimizer results: values normalised by the range seen for each parameter, weighted and
    averaged. Numbers are reals. */
module Fitness {
  import opened Options

  type Result = map<string, real>

  datatype Parameter = Parameter(name: string, weight: real, isRatioFromMax: bool,
    maxRatioValue: Option<real>, minRatioValue: Option<real>)

  function Normalizer(name: string): real {
    if '%' in name then 0.01 else 1.0
  }

  /** Whether normalising a value divides by zero. */
  predicate IsDegenerate(p: Parameter) {
    p.isRatioFromMax && p.maxRatioValue.Some? && p.minRatioValue.Some? &&
    p.maxRatioValue.value == p.minRatioValue.value
  }

  predicate HasRange(p: Parameter) {
    p.maxRatioValue.Some? && p.minRatioValue.Some? && p.minRatioValue.value <= p.maxRatioValue.value
  }

  /** A parameter as `update_ratio` leaves it. */
  predicate IsParameter(p: Parameter) {
    HasRange(p) || (p.maxRatioValue.None? && p.minRatioValue.None?)
  }

  function ValueFromRatio(p: Parameter, raw: real): real
    requires IsParameter(p) && p.isRatioFromMax && !IsDegenerate(p)
  {
    if p.maxRatioValue.None? then raw * Normalizer(p.name)
    else (raw - p.minRatioValue.value) / (p.maxRatioValue.value - p.minRatioValue.value)
  }

  function NormalizedValue(p: Parameter, raw: real): real
    requires IsParameter(p) && !IsDegenerate(p)
  {
    if p.isRatioFromMax then ValueFromRatio(p, raw) * p.weight
    else raw * Normalizer(p.name) * p.weight
  }

  function Updated(p: Parameter, result: Result): Parameter {
    if p.name !in result then p
    else
      var v := result[p.name];
      p.(maxRatioValue := if p.maxRatioValue.None? || v > p.maxRatioValue.value then Some(v) else p.maxRatioValue,
         minRatioValue := if p.minRatioValue.None? || v < p.minRatioValue.value then Some(v) else p.minRatioValue)
  }

  function UpdatedAll(p: Parameter, results: seq<Result>): Parameter {
    if results == [] then p else Updated(UpdatedAll(p, results[..|results| - 1]), results[|results| - 1])
  }

  predicate Attained(name: string, results: seq<Result>, v: real) {
    exists r :: r in results && name in r && r[name] == v
  }

  class FitnessParameter {
    const name: string
    const weight: real
    const isRatioFromMax: bool
    var maxRatioValue: Option<real>
    var minRatioValue: Option<real>

    constructor (name: string, weight: real, isRatioFromMax: bool)
      ensures Current() == Parameter(name, weight, isRatioFromMax, None, None)
    {
      this.name, this.weight, this.isRatioFromMax := name, weight, isRatioFromMax;
      maxRatioValue, minRatioValue := None, None;
    }

    function Current(): Parameter
      reads this
    {
      Parameter(name, weight, isRatioFromMax, maxRatioValue, minRatioValue)
    }

    /** `update_ratio` */
    method UpdateRatio(fullResult: Result)
      modifies this
      ensures Current() == Updated(old(Current()), fullResult)
    {
      if name in fullResult {
        if maxRatioValue.None? || fullResult[name] > maxRatioValue.value {
          maxRatioValue := Some(fullResult[name]);
        }
        if minRatioValue.None? || fullResult[name] < minRatioValue.value {
          minRatioValue := Some(fullResult[name]);
        }
      }
    }
  }

  /** The range is exactly that of the values seen: it bounds them all and both its ends occur; there is
      none as long as no result had the parameter. */
  lemma {:induction false} RangeIsSeen(p: Parameter, results: seq<Result>)
    requires p.maxRatioValue.None? && p.minRatioValue.None?
    ensures var q := UpdatedAll(p, results);
      IsParameter(q) && q.name == p.name && q.weight == p.weight && q.isRatioFromMax == p.isRatioFromMax &&
      (HasRange(q) <==> exists r :: r in results && p.name in r) &&
      (HasRange(q) ==>
        Attained(p.name, results, q.maxRatioValue.value) && Attained(p.name, results, q.minRatioValue.value) &&
        forall r :: r in results && p.name in r ==> q.minRatioValue.value <= r[p.name] <= q.maxRatioValue.value)
  {
    if results != [] {
      var n := |results| - 1;
      RangeIsSeen(p, results[..n]);
      assert results == results[..n] + [results[n]];
    }
  }

  /** What `compute_score` has added up: the sum, the total weight, the values read, and whether a division
      by zero has ended it. */
  datatype Tally = Tally(sum: real, totalWeight: real, values: Result, failed: bool)

  function Added(t: Tally, p: Parameter, result: Result): Tally
    requires IsParameter(p)
  {
    if t.failed || p.name !in result then t
    else
      var read := t.(values := t.values[p.name := result[p.name]]);
      if IsDegenerate(p) then read.(failed := true)
      else read.(sum := t.sum + NormalizedValue(p, result[p.name]), totalWeight := t.totalWeight + p.weight)
  }

  predicate AreParameters(ps: seq<Parameter>) {
    forall p :: p in ps ==> IsParameter(p)
  }

  function TallyOf(ps: seq<Parameter>, result: Result, totalWeight: real, values: Result): Tally
    requires AreParameters(ps)
  {
    if ps == [] then Tally(0.0, totalWeight, values, false)
    else Added(TallyOf(ps[..|ps| - 1], result, totalWeight, values), ps[|ps| - 1], result)
  }

  function ScoreOf(t: Tally): real {
    if t.failed || t.totalWeight == 0.0 then 0.0 else t.sum / t.totalWeight
  }

  class ScoredRunResult {
    const fullResult: Result
    var values: Result
    var score: real
    var totalWeight: real

    constructor (fullResult: Result)
      ensures this.fullResult == fullResult && values == map[] && score == 0.0 && totalWeight == 0.0
    {
      this.fullResult := fullResult;
      values, score, totalWeight := map[], 0.0, 0.0;
    }

    /** `compute_score` */
    method ComputeScore(ps: seq<Parameter>)
      requires AreParameters(ps)
      modifies this
      ensures var t := TallyOf(ps, fullResult, old(totalWeight), old(values));
        score == ScoreOf(t) && totalWeight == t.totalWeight && values == t.values
    {
      score := 0.0;
      var sum := 0.0;
      var i := 0;
      while i < |ps|
        invariant i <= |ps| && score == 0.0
        invariant Tally(sum, totalWeight, values, false) == TallyOf(ps[..i], fullResult, old(totalWeight), old(values))
      {
        OneParameterMore(ps, fullResult, old(totalWeight), old(values), i);
        var p := ps[i];
        i := i + 1;
        if p.name in fullResult {
          values := values[p.name := fullResult[p.name]];
          if IsDegenerate(p) {
            FailedStaysFailed(ps, fullResult, old(totalWeight), old(values), i);
            return;
          }
          sum := sum + NormalizedValue(p, fullResult[p.name]);
          totalWeight := totalWeight + p.weight;
        }
      }
      assert ps[..i] == ps;
      if totalWeight != 0.0 {
        score := sum / totalWeight;
      }
    }
  }

  lemma OneParameterMore(ps: seq<Parameter>, result: Result, totalWeight: real, values: Result, i: nat)
    requires AreParameters(ps) && i < |ps|
    ensures TallyOf(ps[..i + 1], result, totalWeight, values) ==
      Added(TallyOf(ps[..i], result, totalWeight, values), ps[i], result)
  {
    assert ps[..i + 1][..i] == ps[..i];
  }

  lemma {:induction false} FailedStaysFailed(ps: seq<Parameter>, result: Result, totalWeight: real, values: Result, i: nat)
    requires AreParameters(ps) && i <= |ps| && TallyOf(ps[..i], result, totalWeight, values).failed
    ensures TallyOf(ps, result, totalWeight, values) == TallyOf(ps[..i], result, totalWeight, values)
  {
    if i == |ps| {
      assert ps[..i] == ps;
    } else {
      var n := |ps| - 1;
      assert ps[..n][..i] == ps[..i];
      FailedStaysFailed(ps[..n], result, totalWeight, values, i);
    }
  }
}
