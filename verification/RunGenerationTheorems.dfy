/** From an optimizer's configuration to its runs: which values an input takes, which inputs contribute,
    and which candidate runs they make. */
module RunGenerationTheorems {
  import opened OptimizerRuns
  import opened RunGeneration

  // ---------- the values of one input ----------

  function IntAt(min: int, step: int, i: nat): int {
    min + i * step
  }

  /** What an input may be set to, in the terms of its configuration. */
  ghost predicate IsPossible(values: InputValues, v: Value) {
    match values
    case OptionValues(options) => exists option :: option in options && v == ListValue([option])
    case BooleanValues(flags) => v.BoolValue? && v.b in flags
    case IntRange(min, max, step) => v.IntValue? && exists i: nat :: v.i == IntAt(min, step, i) && v.i <= max
    case FloatRange(low, high, delta) => v.FloatValue? && exists i: nat :: v.r == At(low, delta, i) && v.r <= high
    case UnknownValues => false
  }

  lemma {:induction false} IntAtIsReal(min: int, step: int, i: nat)
    ensures At(min as real, step as real, i) == IntAt(min, step, i) as real
  {
    if i > 0 {
      IntAtIsReal(min, step, i - 1);
      assert IntAt(min, step, i) == IntAt(min, step, i - 1) + step;
      assert i as real == (i - 1) as real + 1.0;
    }
  }

  lemma IntRangeValues(input: ConfigInput, n: int)
    requires input.enabled && input.values.IntRange? && input.values.step > 0
    ensures IntValue(n) in PossibleValues(input) <==> IsPossible(input.values, IntValue(n))
  {
    var min, max, step := input.values.min, input.values.max, input.values.step;
    var p, values := Progression(min as real, max as real, step as real), PossibleValues(input);
    if IntValue(n) in values {
      var i: nat :| i < |values| && values[i] == IntValue(n);
      IntAtIsReal(min, step, i);
      FloorBounds(min as real, max as real, step as real, i);
      assert n == IntAt(min, step, i);
    }
    if i: nat :| n == IntAt(min, step, i) && n <= max {
      IntAtIsReal(min, step, i);
      FloorBounds(min as real, max as real, step as real, i);
      assert values[i] == IntValue(n);
    }
  }

  lemma FloatRangeValues(input: ConfigInput, x: real)
    requires input.enabled && input.values.FloatRange? && input.values.delta > 0.0
    ensures FloatValue(x) in PossibleValues(input) <==> IsPossible(input.values, FloatValue(x))
  {
    var p, values := Progression(input.values.low, input.values.high, input.values.delta), PossibleValues(input);
    ProgressionMembers(input.values.low, input.values.high, input.values.delta, x);
    if x in p {
      var i :| 0 <= i < |p| && p[i] == x;
      assert values[i] == FloatValue(x);
    }
  }

  lemma ListedValues(input: ConfigInput, v: Value)
    requires input.enabled && (input.values.OptionValues? || input.values.BooleanValues?)
    ensures v in PossibleValues(input) <==> IsPossible(input.values, v)
  {
    var values := PossibleValues(input);
    if IsPossible(input.values, v) {
      if input.values.OptionValues? {
        var option :| option in input.values.values && v == ListValue([option]);
        var i :| 0 <= i < |input.values.values| && input.values.values[i] == option;
        assert values[i] == v;
      } else {
        var i :| 0 <= i < |input.values.flags| && input.values.flags[i] == v.b;
        assert values[i] == v;
      }
    }
  }

  /** An input takes exactly the values its configuration allows, and none while it is disabled. */
  lemma PossibleExactly(input: ConfigInput, v: Value)
    requires HasPositiveStep(input.values)
    ensures v in PossibleValues(input) <==> input.enabled && IsPossible(input.values, v)
  {
    if input.enabled {
      match input.values
      case IntRange(_, _, _) =>
        if v.IntValue? {
          IntRangeValues(input, v.i);
        }
      case FloatRange(_, _, _) =>
        if v.FloatValue? {
          FloatRangeValues(input, v.r);
        }
      case OptionValues(_) => ListedValues(input, v);
      case BooleanValues(_) => ListedValues(input, v);
      case UnknownValues =>
    }
  }

  /** The values come in the order of the configuration, a range's ones ascending. */
  lemma ValuesInOrder(input: ConfigInput)
    requires HasPositiveStep(input.values) && input.enabled
    ensures var values := PossibleValues(input);
      match input.values
      case OptionValues(options) =>
        |values| == |options| && forall i | 0 <= i < |values| :: values[i] == ListValue([options[i]])
      case BooleanValues(flags) => |values| == |flags| && forall i | 0 <= i < |values| :: values[i] == BoolValue(flags[i])
      case IntRange(min, _, step) => forall i | 0 <= i < |values| :: values[i] == IntValue(IntAt(min, step, i))
      case FloatRange(low, _, delta) => forall i | 0 <= i < |values| :: values[i] == FloatValue(At(low, delta, i))
      case UnknownValues => values == []
  {
    if input.values.IntRange? {
      forall i: nat
        ensures At(input.values.min as real, input.values.step as real, i) == IntAt(input.values.min, input.values.step, i) as real
      {
        IntAtIsReal(input.values.min, input.values.step, i);
      }
    }
  }

  // ---------- the candidates of a configuration ----------

  predicate HasPositiveSteps(config: seq<ConfigInput>) {
    forall input :: input in config ==> HasPositiveStep(input.values)
  }

  /** The input contributes to the runs: it is enabled and can be set to something. */
  ghost predicate Contributes(input: ConfigInput) {
    input.enabled && exists v :: IsPossible(input.values, v)
  }

  /** The inputs that contribute, in the order they are configured. */
  ghost function Contributing(config: seq<ConfigInput>): seq<ConfigInput> {
    if config == [] then []
    else (if Contributes(config[0]) then [config[0]] else []) + Contributing(config[1..])
  }

  /** A setting of a configured input to one of its possible values. */
  ghost predicate IsSetting(input: ConfigInput, c: CandidateInput) {
    c.key == input.key && c.input.userInput == input.userInput && c.input.tentacle == input.tentacle &&
    IsPossible(input.values, c.input.value)
  }

  lemma CandidateIsSetting(input: ConfigInput, c: CandidateInput)
    requires HasPositiveStep(input.values)
    ensures c in Candidates(input) <==> input.enabled && IsSetting(input, c)
  {
    var values, all := PossibleValues(input), Candidates(input);
    PossibleExactly(input, c.input.value);
    if input.enabled && IsSetting(input, c) {
      var i :| 0 <= i < |values| && values[i] == c.input.value;
      assert all[i] == c;
    }
  }

  lemma ContributesExactly(input: ConfigInput)
    requires HasPositiveStep(input.values)
    ensures Contributes(input) <==> Candidates(input) != []
  {
    if Contributes(input) {
      var v :| IsPossible(input.values, v);
      PossibleExactly(input, v);
    }
    if Candidates(input) != [] {
      PossibleExactly(input, PossibleValues(input)[0]);
    }
  }

  predicate IsWithin<T(==)>(iterations: seq<seq<T>>, candidate: seq<T>) {
    |candidate| == |iterations| && forall j :: 0 <= j < |candidate| ==> candidate[j] in iterations[j]
  }

  lemma PrependHas<T>(x: T, tails: seq<seq<T>>, candidate: seq<T>)
    ensures candidate in Prepend(x, tails) <==> candidate != [] && candidate[0] == x && candidate[1..] in tails
  {
    if candidate != [] && candidate[0] == x && candidate[1..] in tails {
      var i :| 0 <= i < |tails| && tails[i] == candidate[1..];
      assert Prepend(x, tails)[i] == candidate;
    }
  }

  lemma {:induction false} BlockHas<T>(heads: seq<T>, tails: seq<seq<T>>, candidate: seq<T>)
    ensures candidate in Block(heads, tails) <==> candidate != [] && candidate[0] in heads && candidate[1..] in tails
  {
    if heads != [] {
      PrependHas(heads[0], tails, candidate);
      BlockHas(heads[1..], tails, candidate);
      assert heads == [heads[0]] + heads[1..];
    }
  }

  /** The product's members, wherever they are: one element of each list. */
  lemma {:induction false} ProductHas<T>(iterations: seq<seq<T>>, candidate: seq<T>)
    ensures candidate in Product(iterations) <==> IsWithin(iterations, candidate)
  {
    if iterations != [] {
      BlockHas(iterations[0], Product(iterations[1..]), candidate);
      if candidate != [] {
        var rest, tail := iterations[1..], candidate[1..];
        ProductHas(rest, tail);
        assert IsWithin(iterations, candidate) <==> candidate[0] in iterations[0] && IsWithin(rest, tail) by {
          assert forall j :: 0 <= j < |tail| ==> tail[j] == candidate[j + 1];
          assert forall j :: 0 <= j < |rest| ==> rest[j] == iterations[j + 1];
        }
      }
    }
  }

  /** One setting for each of the inputs, in their order. */
  ghost predicate Fits(inputs: seq<ConfigInput>, candidate: seq<CandidateInput>) {
    |candidate| == |inputs| && forall j :: 0 <= j < |candidate| ==> IsSetting(inputs[j], candidate[j])
  }

  lemma FitsFirst(inputs: seq<ConfigInput>, candidate: seq<CandidateInput>)
    requires inputs != [] && candidate != []
    ensures Fits(inputs, candidate) <==> IsSetting(inputs[0], candidate[0]) && Fits(inputs[1..], candidate[1..])
  {
    var rest, tail := inputs[1..], candidate[1..];
    if IsSetting(inputs[0], candidate[0]) && Fits(rest, tail) {
      forall j | 0 <= j < |candidate| ensures IsSetting(inputs[j], candidate[j]) {
        if j > 0 {
          assert rest[j - 1] == inputs[j] && tail[j - 1] == candidate[j];
        }
      }
    }
  }

  lemma WithinFirst<T>(iterations: seq<seq<T>>, candidate: seq<T>)
    requires iterations != [] && candidate != []
    ensures IsWithin(iterations, candidate) <==>
      candidate[0] in iterations[0] && IsWithin(iterations[1..], candidate[1..])
  {
    var rest, tail := iterations[1..], candidate[1..];
    if candidate[0] in iterations[0] && IsWithin(rest, tail) {
      forall j | 0 <= j < |candidate| ensures candidate[j] in iterations[j] {
        if j > 0 {
          assert rest[j - 1] == iterations[j] && tail[j - 1] == candidate[j];
        }
      }
    }
  }

  lemma {:induction false} IterationsFit(config: seq<ConfigInput>, candidate: seq<CandidateInput>)
    requires HasPositiveSteps(config)
    ensures IsWithin(Iterations(config), candidate) <==> Fits(Contributing(config), candidate)
  {
    if config != [] {
      var rest := config[1..];
      ContributesExactly(config[0]);
      if !Contributes(config[0]) {
        assert Iterations(config) == Iterations(rest) && Contributing(config) == Contributing(rest);
        IterationsFit(rest, candidate);
      } else if candidate != [] {
        IterationsFit(rest, candidate[1..]);
        CandidateIsSetting(config[0], candidate[0]);
        WithinFirst(Iterations(config), candidate);
        FitsFirst(Contributing(config), candidate);
      }
    }
  }

  /** The candidate runs of a configuration are exactly the ways to set each contributing input to one of
      its possible values. */
  lemma CandidatesExactly(config: seq<ConfigInput>, candidate: seq<CandidateInput>)
    requires HasPositiveSteps(config)
    ensures candidate in Product(Iterations(config)) <==> Fits(Contributing(config), candidate)
  {
    ProductHas(Iterations(config), candidate);
    IterationsFit(config, candidate);
  }

  // ---------- the runs of a configuration ----------

  lemma {:induction false} DistinctFit(order: seq<nat>, all: set<nat>)
    requires forall i, j :: 0 <= i < j < |order| ==> order[i] != order[j]
    requires forall k :: k in order ==> k in all
    ensures |order| <= |all|
  {
    if order != [] {
      var rest := order[1..];
      forall k | k in rest ensures k in all - {order[0]} {
        var j :| 0 <= j < |rest| && rest[j] == k;
        assert order[j + 1] == k;
      }
      DistinctFit(rest, all - {order[0]});
    }
  }

  function Below(n: nat): (all: set<nat>)
    ensures |all| == n && forall k: nat :: k in all <==> k < n
  {
    if n == 0 then {} else Below(n - 1) + {n - 1}
  }

  /** A shuffle leaves nothing out. */
  lemma ShuffleHasAll(order: seq<nat>, n: nat, k: nat)
    requires IsShuffle(order, n) && k < n
    ensures k in order
  {
    if k !in order {
      DistinctFit(order, Below(n) - {k});
    }
  }

  function Allowed(iterations: seq<seq<CandidateInput>>, isAllowed: seq<CandidateInput> -> bool): seq<nat> {
    AllowedPositions(Product(iterations), isAllowed, |Product(iterations)|)
  }

  lemma AllAreSelected(iterations: seq<seq<CandidateInput>>, isAllowed: seq<CandidateInput> -> bool,
      order: seq<nat>, size: int, candidate: seq<CandidateInput>)
    requires IsShuffle(order, |Allowed(iterations, isAllowed)|) && size >= |Allowed(iterations, isAllowed)|
    requires candidate in Product(iterations) && isAllowed(candidate)
    ensures var runs := Generated(iterations, isAllowed, order, size); runs.Some? && WithoutKeys(candidate) in runs.value
  {
    var product, positions := Product(iterations), Allowed(iterations, isAllowed);
    var k :| 0 <= k < |product| && product[k] == candidate;
    AllowedPositionsAreAll(product, isAllowed, |product|);
    assert k in positions;
    var i: nat :| i < |positions| && positions[i] == k;
    ShuffleHasAll(order, |positions|, i);
    var j :| 0 <= j < |order| && order[j] == i;
    assert Generated(iterations, isAllowed, order, size).value[j] == WithoutKeys(candidate);
  }

  /** A run that sets every contributing input to a possible value, in a way that no filter rejects. */
  ghost predicate IsRunOf(config: seq<ConfigInput>, isAllowed: seq<CandidateInput> -> bool, run: Run) {
    exists candidate :: Fits(Contributing(config), candidate) && isAllowed(candidate) && IsWithoutKeys(run, candidate)
  }

  lemma OnlyRunsOf(config: seq<ConfigInput>, isAllowed: seq<CandidateInput> -> bool, order: seq<nat>, size: int, run: Run)
    requires HasPositiveSteps(config) && IsShuffle(order, |Allowed(Iterations(config), isAllowed)|)
    requires var runs := Generated(Iterations(config), isAllowed, order, size); runs.Some? && run in runs.value
    ensures IsRunOf(config, isAllowed, run)
  {
    var product := Product(Iterations(config));
    var runs := Generated(Iterations(config), isAllowed, order, size).value;
    var positions := GeneratedRunsAreSelected(Iterations(config), isAllowed, order, size);
    var i :| 0 <= i < |runs| && runs[i] == run;
    var candidate := product[positions[i]];
    CandidatesExactly(config, candidate);
    assert candidate in product && IsWithoutKeys(run, candidate);
  }

  lemma AllRunsOf(config: seq<ConfigInput>, isAllowed: seq<CandidateInput> -> bool, order: seq<nat>, size: int, run: Run)
    requires HasPositiveSteps(config) && IsShuffle(order, |Allowed(Iterations(config), isAllowed)|)
    requires IsRunOf(config, isAllowed, run) && size >= |Allowed(Iterations(config), isAllowed)|
    ensures var runs := Generated(Iterations(config), isAllowed, order, size); runs.Some? && run in runs.value
  {
    var candidate :| Fits(Contributing(config), candidate) && isAllowed(candidate) && IsWithoutKeys(run, candidate);
    CandidatesExactly(config, candidate);
    AllAreSelected(Iterations(config), isAllowed, order, size, candidate);
    assert run == WithoutKeys(candidate);
  }

  lemma NoRunOf(config: seq<ConfigInput>, isAllowed: seq<CandidateInput> -> bool, order: seq<nat>, size: int)
    requires HasPositiveSteps(config) && IsShuffle(order, |Allowed(Iterations(config), isAllowed)|)
    ensures Generated(Iterations(config), isAllowed, order, size).None? <==>
      forall run :: !IsRunOf(config, isAllowed, run)
  {
    var product := Product(Iterations(config));
    var positions := GeneratedRunsAreSelected(Iterations(config), isAllowed, order, size);
    forall candidate ensures candidate in product <==> Fits(Contributing(config), candidate) {
      CandidatesExactly(config, candidate);
    }
    if candidate :| candidate in product && isAllowed(candidate) {
      assert IsRunOf(config, isAllowed, WithoutKeys(candidate));
    }
  }

  /** What is generated from a configuration, whatever the shuffle: runs of it only, all of them when the
      queue is large enough, and none at all if and only if there is none. */
  lemma RunsOfConfiguration(config: seq<ConfigInput>, isAllowed: seq<CandidateInput> -> bool,
      order: seq<nat>, size: int)
    requires HasPositiveSteps(config) && IsShuffle(order, |Allowed(Iterations(config), isAllowed)|)
    ensures var runs := Generated(Iterations(config), isAllowed, order, size);
      && (runs.None? <==> forall run :: !IsRunOf(config, isAllowed, run))
      && (runs.Some? ==> forall run :: run in runs.value ==> IsRunOf(config, isAllowed, run))
      && (runs.Some? && size >= |Allowed(Iterations(config), isAllowed)| ==>
        forall run :: IsRunOf(config, isAllowed, run) ==> run in runs.value)
  {
    var runs := Generated(Iterations(config), isAllowed, order, size);
    NoRunOf(config, isAllowed, order, size);
    if runs.Some? {
      forall run | run in runs.value ensures IsRunOf(config, isAllowed, run) {
        OnlyRunsOf(config, isAllowed, order, size, run);
      }
    }
    if size >= |Allowed(Iterations(config), isAllowed)| {
      forall run | IsRunOf(config, isAllowed, run) ensures runs.Some? && run in runs.value {
        AllRunsOf(config, isAllowed, order, size, run);
      }
    }
  }
}
