/** Generating the runs of an optimizer from its configured inputs: values per input, cartesian product,
    filters, shuffle and selection. */
module RunGeneration {
  import opened Options
  import opened OptimizerRuns
  import opened OptimizerSchedule

  datatype InputValues =
    | OptionValues(values: seq<Value>)
    | BooleanValues(flags: seq<bool>)
    | IntRange(min: int, max: int, step: int)
    | FloatRange(low: real, high: real, delta: real)
    | UnknownValues

  datatype ConfigInput = ConfigInput(
    key: string, userInput: string, tentacle: seq<string>, enabled: bool, values: InputValues)

  /** An input of a candidate run: it still carries the key that filters refer to. */
  datatype CandidateInput = CandidateInput(key: string, input: RunInput)

  // ---------- number inputs ----------

  /** The i-th value counted from the minimum. */
  function At(start: real, step: real, i: nat): real {
    start + i as real * step
  }

  function ProgressionLength(start: real, stop: real, step: real): nat
    requires step > 0.0
  {
    if start > stop then 0 else (var q := (stop - start) / step; q.Floor + 1)
  }

  function Progression(start: real, stop: real, step: real): seq<real>
    requires step > 0.0
  {
    seq(ProgressionLength(start, stop, step), i requires i >= 0 => At(start, step, i))
  }

  lemma {:induction false} ProductOrder(a: real, b: real, step: real)
    requires step > 0.0
    ensures a <= b ==> a * step <= b * step
    ensures a > b ==> a * step > b * step
  {
    if a > b {
      assert (a - b) * step > 0.0;
    } else {
      assert (b - a) * step >= 0.0;
    }
  }

  lemma FloorBounds(start: real, stop: real, step: real, i: nat)
    requires step > 0.0
    ensures At(start, step, i) <= stop <==> i < ProgressionLength(start, stop, step)
  {
    var q := (stop - start) / step;
    assert q * step == stop - start;
    ProductOrder(i as real, q, step);
    if start > stop {
      ProductOrder(0.0, i as real, step);
    } else {
      assert i as real <= q <==> i < q.Floor + 1;
    }
  }

  /** `_get_all_possible_values`: the loop adding the step while the maximum is not exceeded. */
  method GetAllPossibleValues(start: real, stop: real, step: real) returns (values: seq<real>)
    requires step > 0.0
    ensures |values| == ProgressionLength(start, stop, step)
    ensures forall i :: 0 <= i < |values| ==> values[i] == At(start, step, i)
  {
    values := [];
    var current := start;
    FloorBounds(start, stop, step, 0);
    while current <= stop
      invariant |values| <= ProgressionLength(start, stop, step) && current == At(start, step, |values|)
      invariant current <= stop <==> |values| < ProgressionLength(start, stop, step)
      invariant forall i :: 0 <= i < |values| ==> values[i] == At(start, step, i)
      decreases ProgressionLength(start, stop, step) - |values|
    {
      FloorBounds(start, stop, step, |values| + 1);
      values := values + [current];
      current := current + step;
    }
  }

  /** A number input expands to exactly the multiples of the step from the minimum that do not exceed
      the maximum. */
  lemma ProgressionMembers(start: real, stop: real, step: real, v: real)
    requires step > 0.0
    ensures v in Progression(start, stop, step) <==> exists i: nat :: v == At(start, step, i) && v <= stop
  {
    var p := Progression(start, stop, step);
    if v in p {
      var i: nat :| i < |p| && p[i] == v;
      FloorBounds(start, stop, step, i);
      assert v == At(start, step, i);
    }
    if i: nat :| v == At(start, step, i) && v <= stop {
      FloorBounds(start, stop, step, i);
      assert p[i] == v;
    }
  }

  // ---------- cartesian product ----------

  function Prepend<T>(x: T, tails: seq<seq<T>>): seq<seq<T>> {
    seq(|tails|, i requires 0 <= i < |tails| => [x] + tails[i])
  }

  function Block<T>(heads: seq<T>, tails: seq<seq<T>>): seq<seq<T>> {
    if heads == [] then [] else Prepend(heads[0], tails) + Block(heads[1..], tails)
  }

  /** itertools.product: nested loops, the last input varying fastest. */
  function Product<T>(iterations: seq<seq<T>>): seq<seq<T>> {
    if iterations == [] then [[]] else Block(iterations[0], Product(iterations[1..]))
  }

  predicate IsChoice<T>(iterations: seq<seq<T>>, c: seq<nat>) {
    |c| == |iterations| && forall j :: 0 <= j < |c| ==> c[j] < |iterations[j]|
  }

  function Chosen<T>(iterations: seq<seq<T>>, c: seq<nat>): seq<T>
    requires IsChoice(iterations, c)
  {
    if c == [] then [] else [iterations[0][c[0]]] + Chosen(iterations[1..], c[1..])
  }

  /** Where the block of head number h starts, each block having n elements. */
  function BlockStart(h: nat, n: nat): nat {
    if h == 0 then 0 else n + BlockStart(h - 1, n)
  }

  /** The position of a choice of one value per input within the product. */
  function Rank<T>(iterations: seq<seq<T>>, c: seq<nat>): nat
    requires |c| == |iterations|
  {
    if c == [] then 0 else BlockStart(c[0], |Product(iterations[1..])|) + Rank(iterations[1..], c[1..])
  }

  lemma {:induction false} BlockAt<T>(heads: seq<T>, tails: seq<seq<T>>, h: nat, i: nat)
    requires h < |heads| && i < |tails|
    ensures BlockStart(h, |tails|) + i < |Block(heads, tails)|
    ensures Block(heads, tails)[BlockStart(h, |tails|) + i] == [heads[h]] + tails[i]
  {
    if h > 0 {
      BlockAt(heads[1..], tails, h - 1, i);
    }
  }

  lemma {:induction false} BlockOf<T>(heads: seq<T>, tails: seq<seq<T>>, k: nat) returns (h: nat, i: nat)
    requires k < |Block(heads, tails)|
    ensures h < |heads| && i < |tails| && k == BlockStart(h, |tails|) + i
  {
    if k < |tails| {
      h, i := 0, k;
    } else {
      h, i := BlockOf(heads[1..], tails, k - |tails|);
      h := h + 1;
    }
  }

  lemma {:induction false} BlockStartIsInjective(a: nat, b: nat, r: nat, s: nat, n: nat)
    requires r < n && s < n && BlockStart(a, n) + r == BlockStart(b, n) + s
    ensures a == b && r == s
  {
    if a > 0 && b > 0 {
      BlockStartIsInjective(a - 1, b - 1, r, s, n);
    }
  }

  /** Every choice of one value per input is in the product, at its own position. */
  lemma {:induction false} ProductHasChoice<T>(iterations: seq<seq<T>>, c: seq<nat>)
    requires IsChoice(iterations, c)
    ensures Rank(iterations, c) < |Product(iterations)|
    ensures Product(iterations)[Rank(iterations, c)] == Chosen(iterations, c)
  {
    if c != [] {
      ProductHasChoice(iterations[1..], c[1..]);
      BlockAt(iterations[0], Product(iterations[1..]), c[0], Rank(iterations[1..], c[1..]));
    }
  }

  lemma {:induction false} RankIsInjective<T>(iterations: seq<seq<T>>, c: seq<nat>, d: seq<nat>)
    requires IsChoice(iterations, c) && IsChoice(iterations, d)
    requires Rank(iterations, c) == Rank(iterations, d)
    ensures c == d
  {
    if c != [] {
      var rest := iterations[1..];
      ProductHasChoice(rest, c[1..]);
      ProductHasChoice(rest, d[1..]);
      BlockStartIsInjective(c[0], d[0], Rank(rest, c[1..]), Rank(rest, d[1..]), |Product(rest)|);
      RankIsInjective(rest, c[1..], d[1..]);
      assert c == [c[0]] + c[1..] && d == [d[0]] + d[1..];
    }
  }

  /** ... and every position of the product is that of a choice. */
  lemma {:induction false} ProductIsChoices<T>(iterations: seq<seq<T>>, k: nat) returns (c: seq<nat>)
    requires k < |Product(iterations)|
    ensures IsChoice(iterations, c) && Rank(iterations, c) == k
    ensures Product(iterations)[k] == Chosen(iterations, c)
  {
    if iterations == [] {
      c := [];
    } else {
      var h, i := BlockOf(iterations[0], Product(iterations[1..]), k);
      var tail := ProductIsChoices(iterations[1..], i);
      c := [h] + tail;
      assert c[1..] == tail;
    }
    ProductHasChoice(iterations, c);
  }

  // ---------- from the configured inputs to the scheduled runs ----------

  predicate HasPositiveStep(values: InputValues) {
    (values.IntRange? ==> values.step > 0) && (values.FloatRange? ==> values.delta > 0.0)
  }

  /** `_generate_possible_values`: an option is wrapped in a list, a disabled input has no value. */
  function PossibleValues(input: ConfigInput): seq<Value>
    requires HasPositiveStep(input.values)
  {
    if !input.enabled then []
    else match input.values
      case OptionValues(values) => seq(|values|, i requires 0 <= i < |values| => ListValue([values[i]]))
      case BooleanValues(flags) => seq(|flags|, i requires 0 <= i < |flags| => BoolValue(flags[i]))
      case IntRange(min, max, step) =>
        var p := Progression(min as real, max as real, step as real);
        seq(|p|, i requires 0 <= i < |p| => IntValue(p[i].Floor))
      case FloatRange(low, high, delta) =>
        var p := Progression(low, high, delta);
        seq(|p|, i requires 0 <= i < |p| => FloatValue(p[i]))
      case UnknownValues => []
  }

  function Candidates(input: ConfigInput): seq<CandidateInput>
    requires HasPositiveStep(input.values)
  {
    var values := PossibleValues(input);
    seq(|values|, i requires 0 <= i < |values| =>
      CandidateInput(input.key, RunInput(input.userInput, input.tentacle, values[i])))
  }

  /** The value lists that are not empty, one per input that contributes to the runs. */
  function Iterations(config: seq<ConfigInput>): seq<seq<CandidateInput>>
    requires forall input :: input in config ==> HasPositiveStep(input.values)
  {
    if config == [] then []
    else
      var first := Candidates(config[0]);
      (if first == [] then [] else [first]) + Iterations(config[1..])
  }

  /** The positions, below n, of the candidates that no filter rejects. */
  function AllowedPositions<T>(candidates: seq<T>, isAllowed: T -> bool, n: nat): seq<nat>
    requires n <= |candidates|
  {
    if n == 0 then []
    else AllowedPositions(candidates, isAllowed, n - 1) + (if isAllowed(candidates[n - 1]) then [n - 1] else [])
  }

  /** The length of a list sliced up to a size, which may be negative. */
  function SliceLength(n: nat, size: int): nat {
    if size < 0 then (if n + size < 0 then 0 else n + size)
    else if size < n then size else n
  }

  predicate IsShuffle(order: seq<nat>, n: nat) {
    && |order| == n
    && (forall i :: 0 <= i < n ==> order[i] < n)
    && (forall i, j :: 0 <= i < j < n ==> order[i] != order[j])
  }

  function SelectedPositions(positions: seq<nat>, order: seq<nat>, size: int): (selected: seq<nat>)
    requires IsShuffle(order, |positions|)
    ensures forall i :: 0 <= i < |selected| ==> selected[i] in positions
  {
    seq(SliceLength(|positions|, size), i requires 0 <= i < SliceLength(|positions|, size) => positions[order[i]])
  }

  function WithoutKeys(candidate: seq<CandidateInput>): Run {
    seq(|candidate|, i requires 0 <= i < |candidate| => candidate[i].input)
  }

  function AllowedSet<T>(candidates: seq<T>, isAllowed: T -> bool, n: nat): set<nat>
    requires n <= |candidates|
  {
    set k | 0 <= k < n && isAllowed(candidates[k])
  }

  lemma {:induction false} AllowedPositionsAreAll<T>(candidates: seq<T>, isAllowed: T -> bool, n: nat)
    requires n <= |candidates|
    ensures var p := AllowedPositions(candidates, isAllowed, n);
      && (forall k :: k in p <==> 0 <= k < n && isAllowed(candidates[k]))
      && (forall i, j :: 0 <= i < j < |p| ==> p[i] < p[j])
  {
    if n > 0 {
      AllowedPositionsAreAll(candidates, isAllowed, n - 1);
      var before := AllowedPositions(candidates, isAllowed, n - 1);
      assert forall i :: 0 <= i < |before| ==> before[i] in before;
    }
  }

  /** `_generate_runs`, for a given outcome of the shuffle: None when no run may be scheduled. */
  function Generated(iterations: seq<seq<CandidateInput>>, isAllowed: seq<CandidateInput> -> bool,
      order: seq<nat>, size: int): Option<seq<Run>>
    requires IsShuffle(order, |AllowedPositions(Product(iterations), isAllowed, |Product(iterations)|)|)
  {
    var product := Product(iterations);
    var positions := AllowedPositions(product, isAllowed, |product|);
    var selected := SelectedPositions(positions, order, size);
    AllowedPositionsAreAll(product, isAllowed, |product|);
    if positions == [] then None
    else Some(seq(|selected|, i requires 0 <= i < |selected| => WithoutKeys(product[selected[i]])))
  }

  /** Slicing a shuffled list: distinct elements, as many as the size allows. */
  lemma SelectionOf(allowed: seq<nat>, order: seq<nat>, size: int)
    requires IsShuffle(order, |allowed|) && forall i, j :: 0 <= i < j < |allowed| ==> allowed[i] < allowed[j]
    ensures var p, all := SelectedPositions(allowed, order, size), |allowed|;
      && (size >= 0 ==> |p| == if size < all then size else all)
      && (size < 0 ==> |p| == if all + size > 0 then all + size else 0)
      && (forall i :: 0 <= i < |p| ==> p[i] == allowed[order[i]])
      && (forall i, j :: 0 <= i < j < |p| ==> p[i] != p[j])
  {
  }

  /** The allowed position number j has j allowed ones before it. */
  lemma {:induction false} AllowedBefore<T>(candidates: seq<T>, isAllowed: T -> bool, n: nat, j: nat)
    requires n <= |candidates| && j < |AllowedPositions(candidates, isAllowed, n)|
    ensures var p := AllowedPositions(candidates, isAllowed, n)[j];
      p < n && |AllowedSet(candidates, isAllowed, p)| == j
  {
    if j < |AllowedPositions(candidates, isAllowed, n - 1)| {
      AllowedBefore(candidates, isAllowed, n - 1, j);
    } else {
      AllowedCount(candidates, isAllowed, n - 1);
    }
  }

  /** A run is a candidate without the keys that filters refer to. */
  predicate IsWithoutKeys(run: Run, candidate: seq<CandidateInput>) {
    |run| == |candidate| && forall i :: 0 <= i < |run| ==> run[i] == candidate[i].input
  }

  /** Whatever the shuffle, the generated runs are allowed candidates at pairwise distinct positions of
      the product, the i-th being the one with order[i] allowed ones before it, and as many as the queue size
      allows (a negative one leaving out that many of them); there are none to schedule exactly when every
      candidate is filtered out. */
  lemma GeneratedRunsAreSelected(iterations: seq<seq<CandidateInput>>, isAllowed: seq<CandidateInput> -> bool,
      order: seq<nat>, size: int) returns (positions: seq<nat>)
    requires IsShuffle(order, |AllowedPositions(Product(iterations), isAllowed, |Product(iterations)|)|)
    ensures var product := Product(iterations);
      var runs := Generated(iterations, isAllowed, order, size);
      && (runs.None? <==> forall candidate :: candidate in product ==> !isAllowed(candidate))
      && (runs.Some? ==>
        && |runs.value| == |positions|
        && (var all := |AllowedSet(product, isAllowed, |product|)|;
            && (size >= 0 ==> |positions| == if size < all then size else all)
            && (size < 0 ==> |positions| == if all + size > 0 then all + size else 0))
        && (forall i :: 0 <= i < |positions| ==> positions[i] < |product| && isAllowed(product[positions[i]]))
        && (forall i, j :: 0 <= i < j < |positions| ==> positions[i] != positions[j])
        && (forall i :: 0 <= i < |positions| ==> |AllowedSet(product, isAllowed, positions[i])| == order[i])
        && (forall i :: 0 <= i < |positions| ==> IsWithoutKeys(runs.value[i], product[positions[i]])))
  {
    var product := Product(iterations);
    var allowed := AllowedPositions(product, isAllowed, |product|);
    AllowedPositionsAreAll(product, isAllowed, |product|);
    positions := SelectedPositions(allowed, order, size);
    SelectionOf(allowed, order, size);
    forall i | 0 <= i < |positions|
      ensures |AllowedSet(product, isAllowed, positions[i])| == order[i]
    {
      AllowedBefore(product, isAllowed, |product|, order[i]);
    }
    AllowedCount(product, isAllowed, |product|);
    NoneAllowed(product, isAllowed);
  }

  lemma NoneAllowed<T>(candidates: seq<T>, isAllowed: T -> bool)
    ensures AllowedPositions(candidates, isAllowed, |candidates|) == []
      <==> forall candidate :: candidate in candidates ==> !isAllowed(candidate)
  {
    var allowed := AllowedPositions(candidates, isAllowed, |candidates|);
    AllowedPositionsAreAll(candidates, isAllowed, |candidates|);
    if allowed == [] {
      forall candidate | candidate in candidates ensures !isAllowed(candidate) {
        var k :| 0 <= k < |candidates| && candidates[k] == candidate;
        assert k !in allowed;
      }
    } else {
      assert allowed[0] in allowed && candidates[allowed[0]] in candidates;
    }
  }

  lemma {:induction false} AllowedCount<T>(candidates: seq<T>, isAllowed: T -> bool, n: nat)
    requires n <= |candidates|
    ensures |AllowedPositions(candidates, isAllowed, n)| == |AllowedSet(candidates, isAllowed, n)|
  {
    if n > 0 {
      AllowedCount(candidates, isAllowed, n - 1);
      var below, all := AllowedSet(candidates, isAllowed, n - 1), AllowedSet(candidates, isAllowed, n);
      if isAllowed(candidates[n - 1]) {
        assert all == below + {n - 1};
      } else {
        assert all == below;
      }
    }
  }

  lemma {:induction false} ProductWidth<T>(iterations: seq<seq<T>>, k: nat)
    requires k < |Product(iterations)|
    ensures |Product(iterations)[k]| == |iterations|
  {
    var c := ProductIsChoices(iterations, k);
    ChosenWidth(iterations, c);
  }

  lemma {:induction false} ChosenWidth<T>(iterations: seq<seq<T>>, c: seq<nat>)
    requires IsChoice(iterations, c)
    ensures |Chosen(iterations, c)| == |iterations|
  {
    if c != [] {
      ChosenWidth(iterations[1..], c[1..]);
    }
  }

  lemma SameBelowOne(positions: seq<nat>, i: nat, j: nat)
    requires i < |positions| && j < |positions| && positions[i] < 1 && positions[j] < 1
    ensures positions[i] == positions[j]
  {
  }

  lemma DistinctBelowOne(positions: seq<nat>)
    requires forall i :: 0 <= i < |positions| ==> positions[i] < 1
    requires forall i, j :: 0 <= i < j < |positions| ==> positions[i] != positions[j]
    ensures |positions| <= 1
  {
    if |positions| > 1 {
      SameBelowOne(positions, 0, 1);
    }
  }

  /** Generated schedules are well shaped: an empty run is only generated when no input contributes,
      and then it is the only one. */
  lemma GeneratedIsWellShaped(iterations: seq<seq<CandidateInput>>, isAllowed: seq<CandidateInput> -> bool,
      order: seq<nat>, size: int)
    requires IsShuffle(order, |AllowedPositions(Product(iterations), isAllowed, |Product(iterations)|)|)
    requires Generated(iterations, isAllowed, order, size).Some?
    ensures WellShaped(Generated(iterations, isAllowed, order, size).value)
  {
    var runs := Generated(iterations, isAllowed, order, size).value;
    var positions := GeneratedRunsAreSelected(iterations, isAllowed, order, size);
    forall i | 0 <= i < |runs| ensures |runs[i]| == |iterations| {
      ProductWidth(iterations, positions[i]);
    }
    if iterations == [] {
      assert |Product(iterations)| == 1;
      DistinctBelowOne(positions);
      assert |runs| == 0 || runs == [[]];
    }
  }
}
