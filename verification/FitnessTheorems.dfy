/** What the scores satisfy. */
module FitnessTheorems {
  import opened Options
  import opened Fitness

  /** The score of a result object that has not been scored before. */
  function FreshScore(ps: seq<Parameter>, result: Result): real
    requires AreParameters(ps)
  {
    ScoreOf(TallyOf(ps, result, 0.0, map[]))
  }

  /** What a value counts for: a ratio parameter's share of its range times the weight, so nothing at its lower
      end and the whole weight at its upper end; otherwise the value times the weight, a value given in percent
      being a hundredth. */
  lemma ValueCounts(p: Parameter, raw: real)
    requires IsParameter(p) && !(p.isRatioFromMax && p.maxRatioValue.Some? && p.minRatioValue == Some(p.maxRatioValue.value))
    ensures p.isRatioFromMax && HasRange(p) ==>
      NormalizedValue(p, raw) * (p.maxRatioValue.value - p.minRatioValue.value) == (raw - p.minRatioValue.value) * p.weight
    ensures p.isRatioFromMax && HasRange(p) ==>
      NormalizedValue(p, p.minRatioValue.value) == 0.0 && NormalizedValue(p, p.maxRatioValue.value) == p.weight
    ensures !p.isRatioFromMax || !HasRange(p) ==>
      NormalizedValue(p, raw) == if '%' in p.name then raw * p.weight / 100.0 else raw * p.weight
  {
    if p.isRatioFromMax && HasRange(p) {
      var range := p.maxRatioValue.value - p.minRatioValue.value;
      var share := (raw - p.minRatioValue.value) / range;
      assert share * range == raw - p.minRatioValue.value;
      assert NormalizedValue(p, raw) == share * p.weight;
      assert share * p.weight * range == share * range * p.weight;
      assert range / range == 1.0 && 0.0 / range == 0.0;
      assert ValueFromRatio(p, p.minRatioValue.value) == 0.0 && ValueFromRatio(p, p.maxRatioValue.value) == 1.0;
    } else {
      assert Normalizer(p.name) == if '%' in p.name then 1.0 / 100.0 else 1.0;
      assert raw * Normalizer(p.name) * p.weight == raw * p.weight * Normalizer(p.name);
    }
  }

  predicate RatiosOnly(ps: seq<Parameter>) {
    forall p :: p in ps ==> p.isRatioFromMax && p.weight >= 0.0
  }

  predicate WithinRange(p: Parameter, result: Result) {
    p.name in result ==> HasRange(p) && p.minRatioValue.value <= result[p.name] <= p.maxRatioValue.value
  }

  lemma Fraction(a: real, b: real)
    requires 0.0 <= a <= b && b > 0.0
    ensures 0.0 <= a / b <= 1.0
  {
  }

  lemma NormalizedShare(p: Parameter, raw: real)
    requires p.isRatioFromMax && p.weight >= 0.0 && HasRange(p) && !IsDegenerate(p)
    requires p.minRatioValue.value <= raw <= p.maxRatioValue.value
    ensures 0.0 <= NormalizedValue(p, raw) <= p.weight
  {
    Fraction(raw - p.minRatioValue.value, p.maxRatioValue.value - p.minRatioValue.value);
  }

  lemma {:induction false} SumWithinWeight(ps: seq<Parameter>, result: Result)
    requires AreParameters(ps) && RatiosOnly(ps) && forall p :: p in ps ==> WithinRange(p, result)
    ensures 0.0 <= TallyOf(ps, result, 0.0, map[]).sum <= TallyOf(ps, result, 0.0, map[]).totalWeight
  {
    if ps != [] {
      var n := |ps| - 1;
      assert ps == ps[..n] + [ps[n]];
      SumWithinWeight(ps[..n], result);
      if ps[n].name in result && !IsDegenerate(ps[n]) {
        assert WithinRange(ps[n], result);
        NormalizedShare(ps[n], result[ps[n].name]);
      }
    }
  }

  /** Scored on ratio parameters that have seen its values, a result's score is between 0 and 1. */
  lemma ScoreIsFraction(ps: seq<Parameter>, result: Result)
    requires AreParameters(ps) && RatiosOnly(ps) && forall p :: p in ps ==> WithinRange(p, result)
    ensures 0.0 <= FreshScore(ps, result) <= 1.0
  {
    SumWithinWeight(ps, result);
    var t := TallyOf(ps, result, 0.0, map[]);
    if !t.failed && t.totalWeight > 0.0 {
      Fraction(t.sum, t.totalWeight);
    }
  }

  predicate AreNew(ps: seq<Parameter>) {
    forall p :: p in ps ==> p.maxRatioValue.None? && p.minRatioValue.None?
  }

  function AllUpdated(ps: seq<Parameter>, results: seq<Result>): (r: seq<Parameter>)
    ensures |r| == |ps| && forall i | 0 <= i < |ps| :: r[i] == UpdatedAll(ps[i], results)
  {
    if ps == [] then [] else AllUpdated(ps[..|ps| - 1], results) + [UpdatedAll(ps[|ps| - 1], results)]
  }

  lemma {:induction false} UpdatedParameter(ps: seq<Parameter>, results: seq<Result>, result: Result, i: nat)
    requires AreNew(ps) && RatiosOnly(ps) && i < |ps| && result in results
    ensures var q := AllUpdated(ps, results)[i];
      IsParameter(q) && q.isRatioFromMax && q.weight >= 0.0 && WithinRange(q, result)
  {
    assert ps[i] in ps;
    RangeIsSeen(ps[i], results);
  }

  /** So it is for every result once all have been seen. */
  lemma SeenScoresAreFractions(ps: seq<Parameter>, results: seq<Result>, result: Result)
    requires AreNew(ps) && RatiosOnly(ps) && result in results
    ensures AreParameters(AllUpdated(ps, results))
    ensures 0.0 <= FreshScore(AllUpdated(ps, results), result) <= 1.0
  {
    var qs := AllUpdated(ps, results);
    forall q | q in qs
      ensures IsParameter(q) && q.isRatioFromMax && q.weight >= 0.0 && WithinRange(q, result)
    {
      var i :| 0 <= i < |qs| && qs[i] == q;
      UpdatedParameter(ps, results, result, i);
    }
    ScoreIsFraction(qs, result);
  }

  predicate NeverDegenerate(ps: seq<Parameter>) {
    forall p :: p in ps ==> !IsDegenerate(p) && p.weight >= 0.0
  }

  /** Better or equal on every parameter, with values for the same ones. */
  predicate AtLeast(ps: seq<Parameter>, better: Result, result: Result) {
    forall p :: p in ps ==>
      (p.name in result <==> p.name in better) && (p.name in result ==> result[p.name] <= better[p.name])
  }

  lemma ProductGrows(a: real, b: real, factor: real)
    requires a <= b && factor >= 0.0
    ensures a * factor <= b * factor
  {
  }

  lemma QuotientGrows(a: real, b: real, divisor: real)
    requires a <= b && divisor > 0.0
    ensures a / divisor <= b / divisor
  {
  }

  lemma NormalizedGrows(p: Parameter, raw: real, better: real)
    requires IsParameter(p) && !IsDegenerate(p) && p.weight >= 0.0 && raw <= better
    ensures NormalizedValue(p, raw) <= NormalizedValue(p, better)
  {
    ProductGrows(raw, better, Normalizer(p.name));
    if p.isRatioFromMax {
      if p.maxRatioValue.Some? {
        var least := p.minRatioValue.value;
        QuotientGrows(raw - least, better - least, p.maxRatioValue.value - least);
      }
      ProductGrows(ValueFromRatio(p, raw), ValueFromRatio(p, better), p.weight);
    } else {
      ProductGrows(raw * Normalizer(p.name), better * Normalizer(p.name), p.weight);
    }
  }

  lemma {:induction false} SumGrows(ps: seq<Parameter>, result: Result, better: Result)
    requires AreParameters(ps) && NeverDegenerate(ps) && AtLeast(ps, better, result)
    ensures var t, u := TallyOf(ps, result, 0.0, map[]), TallyOf(ps, better, 0.0, map[]);
      !t.failed && !u.failed && t.totalWeight == u.totalWeight >= 0.0 && t.sum <= u.sum
  {
    if ps != [] {
      var n := |ps| - 1;
      assert ps == ps[..n] + [ps[n]];
      SumGrows(ps[..n], result, better);
      if ps[n].name in result {
        NormalizedGrows(ps[n], result[ps[n].name], better[ps[n].name]);
      }
    }
  }

  /** Without a degenerate range, raising values never lowers the score; ratio parameters or not. */
  lemma ScoreGrows(ps: seq<Parameter>, result: Result, better: Result)
    requires AreParameters(ps) && NeverDegenerate(ps) && AtLeast(ps, better, result)
    ensures FreshScore(ps, result) <= FreshScore(ps, better)
  {
    SumGrows(ps, result, better);
    var t, u := TallyOf(ps, result, 0.0, map[]), TallyOf(ps, better, 0.0, map[]);
    if t.totalWeight > 0.0 {
      QuotientGrows(t.sum, u.sum, t.totalWeight);
    }
  }

  /** All values seen for a ratio parameter were the same. */
  predicate IsPoint(p: Parameter) {
    p.isRatioFromMax && p.maxRatioValue.Some? && p.minRatioValue == Some(p.maxRatioValue.value)
  }

  lemma {:induction false} FailsExactly(ps: seq<Parameter>, result: Result, totalWeight: real, values: Result)
    requires AreParameters(ps)
    ensures TallyOf(ps, result, totalWeight, values).failed <==>
      exists i | 0 <= i < |ps| :: IsPoint(ps[i]) && ps[i].name in result
  {
    if ps != [] {
      var n := |ps| - 1;
      FailsExactly(ps[..n], result, totalWeight, values);
      assert forall i | 0 <= i < n :: ps[..n][i] == ps[i];
    }
  }

  /** One parameter whose range is a single value makes the whole score 0, whatever the others give. */
  lemma DegenerateRangeGivesZero(ps: seq<Parameter>, result: Result, i: nat)
    requires AreParameters(ps) && i < |ps| && IsPoint(ps[i]) && ps[i].name in result
    ensures FreshScore(ps, result) == 0.0
  {
    FailsExactly(ps, result, 0.0, map[]);
  }

  /** The weighted values of the parameters the result has, and the weights of these. */
  function WeightedValues(ps: seq<Parameter>, result: Result): real
    requires AreParameters(ps) && forall p :: p in ps ==> !(IsPoint(p) && p.name in result)
  {
    if ps == [] then 0.0
    else
      assert ps[0] in ps && (IsDegenerate(ps[0]) ==> IsPoint(ps[0]));
      (if ps[0].name in result then NormalizedValue(ps[0], result[ps[0].name]) else 0.0) + WeightedValues(ps[1..], result)
  }

  function Weights(ps: seq<Parameter>, result: Result): real {
    if ps == [] then 0.0
    else (if ps[0].name in result then ps[0].weight else 0.0) + Weights(ps[1..], result)
  }

  lemma {:induction false} WeightsOfTwo(ps: seq<Parameter>, qs: seq<Parameter>, result: Result)
    requires AreParameters(ps + qs) && forall p :: p in ps + qs ==> !(IsPoint(p) && p.name in result)
    ensures forall p :: p in ps || p in qs ==> p in ps + qs
    ensures WeightedValues(ps + qs, result) == WeightedValues(ps, result) + WeightedValues(qs, result)
    ensures Weights(ps + qs, result) == Weights(ps, result) + Weights(qs, result)
  {
    assert forall p :: p in ps || p in qs ==> p in ps + qs;
    if ps == [] {
      assert ps + qs == qs;
    } else {
      assert (ps + qs)[1..] == ps[1..] + qs;
      WeightsOfTwo(ps[1..], qs, result);
    }
  }

  lemma {:induction false} TallyIsWeighted(ps: seq<Parameter>, result: Result)
    requires AreParameters(ps) && forall p :: p in ps ==> !(IsPoint(p) && p.name in result)
    ensures var t := TallyOf(ps, result, 0.0, map[]);
      !t.failed && t.sum == WeightedValues(ps, result) && t.totalWeight == Weights(ps, result)
  {
    if ps != [] {
      var n := |ps| - 1;
      assert ps == ps[..n] + [ps[n]];
      TallyIsWeighted(ps[..n], result);
      WeightsOfTwo(ps[..n], [ps[n]], result);
    }
  }

  /** A score is the weighted mean over the parameters the result has, or 0 when they weigh nothing. */
  lemma ScoreIsWeightedMean(ps: seq<Parameter>, result: Result)
    requires AreParameters(ps) && forall p :: p in ps ==> !(IsPoint(p) && p.name in result)
    ensures FreshScore(ps, result) ==
      if Weights(ps, result) == 0.0 then 0.0 else WeightedValues(ps, result) / Weights(ps, result)
  {
    TallyIsWeighted(ps, result);
  }

  /** The values kept beside a score: all that were before, and the result's own for the parameters scored,
      which are all of them unless a division by zero has ended it. */
  lemma {:induction false} ValuesAreRead(ps: seq<Parameter>, result: Result, totalWeight: real, values: Result, name: string)
    requires AreParameters(ps)
    ensures var t := TallyOf(ps, result, totalWeight, values);
      && (name in t.values ==>
        || (name in values && t.values[name] == values[name])
        || (name in result && t.values[name] == result[name] && exists i | 0 <= i < |ps| :: ps[i].name == name))
      && (!t.failed && name in result && (exists i | 0 <= i < |ps| :: ps[i].name == name) ==>
        name in t.values && t.values[name] == result[name])
  {
    if ps != [] {
      var n := |ps| - 1;
      ValuesAreRead(ps[..n], result, totalWeight, values, name);
      assert forall i | 0 <= i < n :: ps[..n][i] == ps[i];
    }
  }

  lemma {:induction false} StartingWeightIsAdded(ps: seq<Parameter>, result: Result, totalWeight: real, values: Result)
    requires AreParameters(ps)
    ensures var t, u := TallyOf(ps, result, 0.0, map[]), TallyOf(ps, result, totalWeight, values);
      u.sum == t.sum && u.failed == t.failed && u.totalWeight == totalWeight + t.totalWeight
  {
    if ps != [] {
      StartingWeightIsAdded(ps[..|ps| - 1], result, totalWeight, values);
    }
  }

  /** The k-th scoring of one result object: the total weight is never reset. */
  function Scoring(ps: seq<Parameter>, result: Result, k: nat): Tally
    requires AreParameters(ps) && k > 0
  {
    if k == 1 then TallyOf(ps, result, 0.0, map[])
    else
      var before := Scoring(ps, result, k - 1);
      TallyOf(ps, result, before.totalWeight, before.values)
  }

  lemma {:induction false} WeightAfter(ps: seq<Parameter>, result: Result, k: nat)
    requires AreParameters(ps) && k > 0
    ensures var t, u := Scoring(ps, result, 1), Scoring(ps, result, k);
      u.sum == t.sum && u.failed == t.failed && u.totalWeight == k as real * t.totalWeight
  {
    if k > 1 {
      WeightAfter(ps, result, k - 1);
      var before := Scoring(ps, result, k - 1);
      StartingWeightIsAdded(ps, result, before.totalWeight, before.values);
    }
  }

  lemma OwnShare(score: real, k: nat)
    requires k > 1
    ensures score / k as real == score <==> score == 0.0
  {
    var share, n := score / k as real, k as real;
    assert share * n == score;
    if share == score {
      NothingTimes(score, n - 1.0);
    }
  }

  lemma NothingTimes(x: real, factor: real)
    requires x * factor == 0.0 && factor > 0.0
    ensures x == 0.0
  {
  }

  /** Scoring an object again gives a k-th of its first score, so the same one only if that was 0. */
  lemma ScoredAgain(ps: seq<Parameter>, result: Result, k: nat)
    requires AreParameters(ps) && k > 1
    ensures ScoreOf(Scoring(ps, result, k)) == FreshScore(ps, result) / k as real
    ensures ScoreOf(Scoring(ps, result, k)) == FreshScore(ps, result) <==> FreshScore(ps, result) == 0.0
  {
    WeightAfter(ps, result, k);
    OwnShare(FreshScore(ps, result), k);
  }
}
