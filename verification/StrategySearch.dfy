/** The strategy optimizer's nested search over risks, evaluators and time frames, its run counter and the
    progress computed from it. */
module StrategySearch {
  import opened Options
  import opened SubsetSearch
  import opened SubsetSearchExact
  import opened SubsetSearchBound

  datatype TestRun = TestRun(risk: real, evaluators: set<string>, timeFrames: set<string>)

  function RunsOf(risk: real, evaluators: set<string>, timeFrames: seq<set<string>>): seq<TestRun> {
    seq(|timeFrames|, i requires 0 <= i < |timeFrames| => TestRun(risk, evaluators, timeFrames[i]))
  }

  function RunsOfRisk(risk: real, evaluators: seq<set<string>>, timeFrames: seq<set<string>>): seq<TestRun> {
    var n := |evaluators|;
    if n == 0 then [] else RunsOfRisk(risk, evaluators[..n - 1], timeFrames) + RunsOf(risk, evaluators[n - 1], timeFrames)
  }

  /** Every risk with every evaluator configuration with every time frame configuration. */
  function AllRuns(risks: seq<real>, evaluators: seq<set<string>>, timeFrames: seq<set<string>>): seq<TestRun> {
    var n := |risks|;
    if n == 0 then []
    else AllRuns(risks[..n - 1], evaluators, timeFrames) + RunsOfRisk(risks[n - 1], evaluators, timeFrames)
  }

  /** The runs of a whole search: the strategy is active in every evaluator configuration. */
  function SearchRuns(strategy: string, allTAs: seq<string>, allTimeFrames: seq<string>, risks: seq<real>): seq<TestRun> {
    AllRuns(risks, Enumeration(allTAs, Some(strategy)), Enumeration(allTimeFrames, None))
  }

  function TotalRuns(allTAs: seq<string>, allTimeFrames: seq<string>, risks: seq<real>): int {
    |risks| * ((Pow2(|allTimeFrames|) - 1) * (Pow2(|allTAs|) - 1))
  }

  /** `get_overall_progress`: a percentage truncated towards zero, 0 while there is no total. */
  function Progress(runId: int, total: int): int {
    if total <= 0 then 0
    else
      var x := (runId - 1) * 100;
      if x >= 0 then x / total else -(-x / total)
  }

  lemma {:induction false} RunsOfRiskExtend(risk: real, evaluators: seq<set<string>>, timeFrames: seq<set<string>>, n: nat)
    requires n <= |evaluators|
    ensures RunsOfRisk(risk, evaluators[..n], timeFrames) <= RunsOfRisk(risk, evaluators, timeFrames)
    decreases |evaluators|
  {
    if n < |evaluators| {
      var front := evaluators[..|evaluators| - 1];
      RunsOfRiskExtend(risk, front, timeFrames, n);
      assert front[..n] == evaluators[..n];
    } else {
      assert evaluators[..n] == evaluators;
    }
  }

  lemma {:induction false} AllRunsExtend(risks: seq<real>, evaluators: seq<set<string>>, timeFrames: seq<set<string>>, n: nat)
    requires n <= |risks|
    ensures AllRuns(risks[..n], evaluators, timeFrames) <= AllRuns(risks, evaluators, timeFrames)
    decreases |risks|
  {
    if n < |risks| {
      var front := risks[..|risks| - 1];
      AllRunsExtend(front, evaluators, timeFrames, n);
      assert front[..n] == risks[..n];
    } else {
      assert risks[..n] == risks;
    }
  }

  lemma AllRunsNext(risks: seq<real>, evaluators: seq<set<string>>, timeFrames: seq<set<string>>, r: nat)
    requires r < |risks|
    ensures AllRuns(risks[..r], evaluators, timeFrames) + RunsOfRisk(risks[r], evaluators, timeFrames)
      <= AllRuns(risks, evaluators, timeFrames)
  {
    AllRunsExtend(risks, evaluators, timeFrames, r + 1);
    assert risks[..r + 1][..r] == risks[..r];
  }

  lemma RunsOfRiskNext(risk: real, evaluators: seq<set<string>>, timeFrames: seq<set<string>>, c: nat)
    requires c < |evaluators|
    ensures RunsOfRisk(risk, evaluators[..c], timeFrames) + RunsOf(risk, evaluators[c], timeFrames)
      <= RunsOfRisk(risk, evaluators, timeFrames)
  {
    RunsOfRiskExtend(risk, evaluators, timeFrames, c + 1);
    assert evaluators[..c + 1][..c] == evaluators[..c];
  }

  lemma PrefixWithin<T>(front: seq<T>, some: seq<T>, more: seq<T>, all: seq<T>)
    requires some <= more && front + more <= all
    ensures front + some <= all
  {
    assert front + some <= front + more;
  }

  /** What has been run after r whole risks, c evaluator configurations of the next risk, and t time frame
      configurations of the next of those, is the start of all the runs. */
  lemma {:induction false} PartialRuns(risks: seq<real>, evaluators: seq<set<string>>, timeFrames: seq<set<string>>, r: nat, c: nat, t: nat)
    requires r < |risks| && c < |evaluators| && t <= |timeFrames|
    ensures AllRuns(risks[..r], evaluators, timeFrames) + (RunsOfRisk(risks[r], evaluators[..c], timeFrames)
      + RunsOf(risks[r], evaluators[c], timeFrames[..t])) <= AllRuns(risks, evaluators, timeFrames)
  {
    AllRunsNext(risks, evaluators, timeFrames, r);
    RunsOfRiskNext(risks[r], evaluators, timeFrames, c);
    RunsOfSplit(risks[r], evaluators[c], timeFrames, t);
    var whole := RunsOfRisk(risks[r], evaluators, timeFrames);
    PrefixWithin(RunsOfRisk(risks[r], evaluators[..c], timeFrames), RunsOf(risks[r], evaluators[c], timeFrames[..t]),
      RunsOf(risks[r], evaluators[c], timeFrames), whole);
    PrefixWithin(AllRuns(risks[..r], evaluators, timeFrames), RunsOfRisk(risks[r], evaluators[..c], timeFrames)
      + RunsOf(risks[r], evaluators[c], timeFrames[..t]), whole, AllRuns(risks, evaluators, timeFrames));
  }

  /** The same for the first evaluator configurations, followed by one that is run with t of the time
      frame configurations: all of its runs when t is their number. */
  lemma StartOfSearch(risks: seq<real>, evaluators: seq<set<string>>, timeFrames: seq<set<string>>, r: nat,
      tried: seq<set<string>>, next: set<string>, t: nat)
    requires r < |risks| && tried + [next] <= evaluators && t <= |timeFrames|
    ensures var before := AllRuns(risks[..r], evaluators, timeFrames);
      var made := before + RunsOfRisk(risks[r], tried, timeFrames) + RunsOf(risks[r], next, timeFrames[..t]);
      made <= AllRuns(risks, evaluators, timeFrames) &&
      (t == |timeFrames| ==> made == before + RunsOfRisk(risks[r], tried + [next], timeFrames))
  {
    var c := |tried|;
    assert evaluators[..c] == tried && evaluators[c] == next && (tried + [next])[..c] == tried;
    PartialRuns(risks, evaluators, timeFrames, r, c, t);
    var before, some := RunsOfRisk(risks[r], tried, timeFrames), RunsOf(risks[r], next, timeFrames[..t]);
    Associative(AllRuns(risks[..r], evaluators, timeFrames), before, some);
    if t == |timeFrames| {
      assert timeFrames[..t] == timeFrames;
    }
  }

  lemma Associative<T>(a: seq<T>, b: seq<T>, c: seq<T>)
    ensures a + b + c == a + (b + c)
  {
  }

  lemma RunsOfSplit(risk: real, evaluators: set<string>, timeFrames: seq<set<string>>, n: nat)
    requires n <= |timeFrames|
    ensures RunsOf(risk, evaluators, timeFrames)
      == RunsOf(risk, evaluators, timeFrames[..n]) + RunsOf(risk, evaluators, timeFrames[n..])
  {
  }

  /** Every run made was allowed by a check of its own: with a cancel to be seen after some checks, no more runs
      are made than checks have passed. */
  predicate IsAllowed(before: Option<nat>, after: Option<nat>, made: int) {
    before.Some? ==> after.Some? && made + after.value <= before.value
  }

  class StrategyOptimizer {
    const strategy: string
    const allTAs: seq<string>
    const allTimeFrames: seq<string>
    const risks: seq<real>
    var runId: int
    var totalNbRuns: int
    var runs: seq<TestRun>
    /** How many more times keep_running is read before a cancel is seen; None when there is no cancel. */
    var checksLeft: Option<nat>

    constructor (strategy: string, allTAs: seq<string>, allTimeFrames: seq<string>, risks: seq<real>, checksLeft: Option<nat>)
      ensures this.strategy == strategy && this.allTAs == allTAs && this.allTimeFrames == allTimeFrames
      ensures this.risks == risks && this.checksLeft == checksLeft
      ensures runId == 0 && totalNbRuns == 0 && runs == []
    {
      this.strategy, this.allTAs, this.allTimeFrames, this.risks := strategy, allTAs, allTimeFrames, risks;
      this.checksLeft := checksLeft;
      runId, totalNbRuns, runs := 0, 0, [];
    }

    /** The counter has followed the runs since, and these were allowed. */
    ghost predicate HasCounted(runsBefore: seq<TestRun>, runIdBefore: int, checksBefore: Option<nat>)
      reads this
    {
      runId - |runs| == runIdBefore - |runsBefore| && (checksLeft.None? <==> checksBefore.None?) &&
      IsAllowed(checksBefore, checksLeft, |runs| - |runsBefore|)
    }

    method ShouldStop() returns (stop: bool)
      modifies this`checksLeft
      ensures stop <==> old(checksLeft) == Some(0)
      ensures checksLeft == if old(checksLeft).Some? && !stop then Some(old(checksLeft).value - 1) else old(checksLeft)
    {
      stop := checksLeft == Some(0);
      if checksLeft.Some? && checksLeft.value > 0 {
        checksLeft := Some(checksLeft.value - 1);
      }
    }

    /** `_run_on_config`: one run when there is a new time frame configuration, so that the runs stay one
        for each configuration of the history. */
    method RunOnConfig(risk: real, forced: string, k: nat, history: ConfHistory<string>, evaluators: set<string>,
        ghost before: seq<TestRun>)
      requires runs == before + RunsOf(risk, evaluators, history.confs)
      modifies this`runId, this`runs, history
      ensures history.confs == Attempt(allTimeFrames, forced, k, old(history.confs), None)
      ensures runs == before + RunsOf(risk, evaluators, history.confs)
      ensures runId - |runs| == old(runId) - |old(runs)| && |runs| <= |old(runs)| + 1
    {
      var timeFrames := history.GetActivatedElement(allTimeFrames, forced, k, None);
      if timeFrames.Some? {
        RunsOfSplit(risk, evaluators, history.confs, |old(history.confs)|);
        runs := runs + [TestRun(risk, evaluators, timeFrames.value)];
        runId := runId + 1;
      }
    }

    /** The body of the innermost loop: the check, and what it allows. */
    method CheckAndRun(risk: real, forced: string, k: nat, history: ConfHistory<string>, evaluators: set<string>,
        ghost before: seq<TestRun>) returns (cancelled: bool)
      requires runs == before + RunsOf(risk, evaluators, history.confs)
      modifies this`runId, this`runs, this`checksLeft, history
      ensures cancelled <==> old(checksLeft) == Some(0)
      ensures history.confs ==
        if cancelled then old(history.confs) else Attempt(allTimeFrames, forced, k, old(history.confs), None)
      ensures runs == before + RunsOf(risk, evaluators, history.confs)
      ensures HasCounted(old(runs), old(runId), old(checksLeft))
      ensures cancelled ==> checksLeft == Some(0)
    {
      cancelled := ShouldStop();
      if !cancelled {
        RunOnConfig(risk, forced, k, history, evaluators, before);
      }
    }

    /** The three inner loops for one evaluator configuration; `done` counts the time frame
        configurations run before a cancel. */
    method RunTimeFrames(risk: real, evaluators: set<string>) returns (cancelled: bool, ghost done: nat)
      modifies this`runId, this`runs, this`checksLeft
      ensures var confs := Enumeration(allTimeFrames, None);
        && done <= |confs| && (!cancelled ==> done == |confs|)
        && runs == old(runs) + RunsOf(risk, evaluators, confs[..done])
      ensures HasCounted(old(runs), old(runId), old(checksLeft))
      ensures cancelled ==> checksLeft == Some(0)
    {
      var history := new ConfHistory<string>();
      var n := |allTimeFrames|;
      for f := 0 to n
        invariant Remaining(allTimeFrames, None, history.confs, f, 1, 0) == Enumeration(allTimeFrames, None)
        invariant fresh(history) && runs == old(runs) + RunsOf(risk, evaluators, history.confs)
        invariant HasCounted(old(runs), old(runId), old(checksLeft))
      {
        for k := 1 to n + 1
          invariant Remaining(allTimeFrames, None, history.confs, f, k, 0) == Enumeration(allTimeFrames, None)
          invariant fresh(history) && runs == old(runs) + RunsOf(risk, evaluators, history.confs)
          invariant HasCounted(old(runs), old(runId), old(checksLeft))
        {
          for m := 0 to n
            invariant Remaining(allTimeFrames, None, history.confs, f, k, m) == Enumeration(allTimeFrames, None)
            invariant fresh(history) && runs == old(runs) + RunsOf(risk, evaluators, history.confs)
            invariant HasCounted(old(runs), old(runId), old(checksLeft))
          {
            cancelled := CheckAndRun(risk, allTimeFrames[f], k, history, evaluators, old(runs));
            if cancelled {
              RemainingExtends(allTimeFrames, None, history.confs, f, k, m);
              return true, |history.confs|;
            }
          }
        }
      }
      cancelled, done := false, |history.confs|;
      assert history.confs[..done] == history.confs;
    }

    /** One attempt at a new evaluator configuration, tried with every time frame configuration. */
    method AttemptEvaluators(r: nat, f: nat, k: nat, m: nat, history: ConfHistory<string>) returns (cancelled: bool)
      requires r < |risks| && f < |allTAs| && 1 <= k <= |allTAs| && m < |allTAs|
      requires Remaining(allTAs, Some(strategy), history.confs, f, k, m) == Enumeration(allTAs, Some(strategy))
      requires runs == AllRuns(risks[..r], Enumeration(allTAs, Some(strategy)), Enumeration(allTimeFrames, None))
        + RunsOfRisk(risks[r], history.confs, Enumeration(allTimeFrames, None))
      modifies this`runId, this`runs, this`checksLeft, history
      ensures history.confs == Attempt(allTAs, allTAs[f], k, old(history.confs), Some(strategy))
      ensures !cancelled ==>
        runs == AllRuns(risks[..r], Enumeration(allTAs, Some(strategy)), Enumeration(allTimeFrames, None))
          + RunsOfRisk(risks[r], history.confs, Enumeration(allTimeFrames, None))
      ensures cancelled ==> runs <= SearchRuns(strategy, allTAs, allTimeFrames, risks)
      ensures HasCounted(old(runs), old(runId), old(checksLeft))
      ensures cancelled ==> checksLeft == Some(0)
    {
      ghost var all, timeFrames := Enumeration(allTAs, Some(strategy)), Enumeration(allTimeFrames, None);
      ghost var before := history.confs;
      cancelled := false;
      var evaluators := history.GetActivatedElement(allTAs, allTAs[f], k, Some(strategy));
      if evaluators.Some? {
        RemainingExtends(allTAs, Some(strategy), history.confs, f, k, m + 1);
        ghost var done;
        cancelled, done := RunTimeFrames(risks[r], evaluators.value);
        StartOfSearch(risks, all, timeFrames, r, before, evaluators.value, done);
      }
    }

    /** The evaluator loops for one risk. */
    method IterateOnRisk(r: nat) returns (cancelled: bool)
      requires r < |risks|
      requires runs == AllRuns(risks[..r], Enumeration(allTAs, Some(strategy)), Enumeration(allTimeFrames, None))
      modifies this`runId, this`runs, this`checksLeft
      ensures !cancelled ==> runs == AllRuns(risks[..r + 1], Enumeration(allTAs, Some(strategy)), Enumeration(allTimeFrames, None))
      ensures cancelled ==> runs <= SearchRuns(strategy, allTAs, allTimeFrames, risks)
      ensures HasCounted(old(runs), old(runId), old(checksLeft))
      ensures cancelled ==> checksLeft == Some(0)
    {
      ghost var all, timeFrames := Enumeration(allTAs, Some(strategy)), Enumeration(allTimeFrames, None);
      var history := new ConfHistory<string>();
      var n := |allTAs|;
      for f := 0 to n
        invariant Remaining(allTAs, Some(strategy), history.confs, f, 1, 0) == all
        invariant fresh(history) && runs == old(runs) + RunsOfRisk(risks[r], history.confs, timeFrames)
        invariant HasCounted(old(runs), old(runId), old(checksLeft))
      {
        for k := 1 to n + 1
          invariant Remaining(allTAs, Some(strategy), history.confs, f, k, 0) == all
          invariant fresh(history) && runs == old(runs) + RunsOfRisk(risks[r], history.confs, timeFrames)
          invariant HasCounted(old(runs), old(runId), old(checksLeft))
        {
          for m := 0 to n
            invariant Remaining(allTAs, Some(strategy), history.confs, f, k, m) == all
            invariant fresh(history) && runs == old(runs) + RunsOfRisk(risks[r], history.confs, timeFrames)
            invariant HasCounted(old(runs), old(runId), old(checksLeft))
          {
            cancelled := AttemptEvaluators(r, f, k, m, history);
            if cancelled {
              return true;
            }
          }
        }
      }
      cancelled := false;
      assert risks[..r + 1][..r] == risks[..r];
    }

    /** `_iterate_on_configs`: whatever moment a cancel is seen at, the runs made are the first ones of
        the whole search, no more than checks before it, and all of them when none is seen. */
    method IterateOnConfigs()
      requires runs == []
      modifies this`runId, this`runs, this`checksLeft
      ensures runs <= SearchRuns(strategy, allTAs, allTimeFrames, risks)
      ensures runs == SearchRuns(strategy, allTAs, allTimeFrames, risks) || checksLeft == Some(0)
      ensures IsAllowed(old(checksLeft), checksLeft, |runs|)
      ensures checksLeft.None? <==> old(checksLeft).None?
      ensures runId == old(runId) + |runs|
    {
      for r := 0 to |risks|
        invariant runs == AllRuns(risks[..r], Enumeration(allTAs, Some(strategy)), Enumeration(allTimeFrames, None))
        invariant runId == old(runId) + |runs|
        invariant checksLeft.None? <==> old(checksLeft).None?
        invariant IsAllowed(old(checksLeft), checksLeft, |runs| - |old(runs)|)
      {
        var cancelled := IterateOnRisk(r);
        if cancelled {
          return;
        }
      }
      assert risks[..|risks|] == risks;
    }

    /** `find_optimal_configuration`, up to the counters it leaves behind. */
    method FindOptimalConfiguration()
      modifies this`runId, this`runs, this`checksLeft, this`totalNbRuns
      ensures totalNbRuns == TotalRuns(allTAs, allTimeFrames, risks)
      ensures runs <= SearchRuns(strategy, allTAs, allTimeFrames, risks)
      ensures runs == SearchRuns(strategy, allTAs, allTimeFrames, risks) || checksLeft == Some(0)
      ensures old(checksLeft).Some? ==> |runs| <= old(checksLeft).value
      ensures checksLeft.None? <==> old(checksLeft).None?
      ensures runId == |runs| + 1
      ensures 0 <= Progress(runId, totalNbRuns) <= 100
    {
      runs := [];
      totalNbRuns := TotalRuns(allTAs, allTimeFrames, risks);
      runId := 1;
      IterateOnConfigs();
      ProgressOfSearch(strategy, allTAs, allTimeFrames, risks, runs);
    }
  }

  // ---------- counting ----------

  lemma NextMultiple(a: nat, b: nat)
    ensures (a + 1) * b == a * b + b
  {
  }

  lemma ProductAtMost(a: nat, b: nat, c: nat, d: nat)
    requires a <= c && b <= d
    ensures 0 <= a * b <= c * d
  {
    assert a * b <= a * d;
    assert a * d <= c * d;
  }

  lemma ProductEquals(a: nat, b: nat, c: nat, d: nat)
    requires a <= c && b <= d && c > 0 && d > 0
    ensures a * b == c * d <==> a == c && b == d
  {
    if a < c {
      ProductAtMost(a, b, a, d);
      NextMultiple(a, d);
      ProductAtMost(a + 1, d, c, d);
    } else if b < d {
      NextMultiple(b, a);
      ProductAtMost(b + 1, a, d, a);
    }
  }

  lemma {:induction false} RunsOfRiskCount(risk: real, evaluators: seq<set<string>>, timeFrames: seq<set<string>>)
    ensures |RunsOfRisk(risk, evaluators, timeFrames)| == |evaluators| * |timeFrames|
    decreases |evaluators|
  {
    var n := |evaluators|;
    if n > 0 {
      RunsOfRiskCount(risk, evaluators[..n - 1], timeFrames);
      NextMultiple(n - 1, |timeFrames|);
    }
  }

  lemma {:induction false} AllRunsCount(risks: seq<real>, evaluators: seq<set<string>>, timeFrames: seq<set<string>>, each: nat)
    requires each == |timeFrames| * |evaluators|
    ensures |AllRuns(risks, evaluators, timeFrames)| == |risks| * each
    decreases |risks|
  {
    var n := |risks|;
    if n > 0 {
      AllRunsCount(risks[..n - 1], evaluators, timeFrames, each);
      RunsOfRiskCount(risks[n - 1], evaluators, timeFrames);
      NextMultiple(n - 1, each);
    }
  }

  /** The search never makes more runs than announced, for any lists of elements. */
  lemma SearchIsWithinTotal(strategy: string, allTAs: seq<string>, allTimeFrames: seq<string>, risks: seq<real>)
    ensures |SearchRuns(strategy, allTAs, allTimeFrames, risks)| <= TotalRuns(allTAs, allTimeFrames, risks)
  {
    var evaluators, timeFrames := Enumeration(allTAs, Some(strategy)), Enumeration(allTimeFrames, None);
    EnumerationIsSmall(allTAs, Some(strategy));
    EnumerationIsSmall(allTimeFrames, None);
    AllRunsCount(risks, evaluators, timeFrames, |timeFrames| * |evaluators|);
    ProductAtMost(|timeFrames|, |evaluators|, Pow2(|allTimeFrames|) - 1, Pow2(|allTAs|) - 1);
    ProductAtMost(|risks|, |timeFrames| * |evaluators|, |risks|,
      (Pow2(|allTimeFrames|) - 1) * (Pow2(|allTAs|) - 1));
  }

  lemma ProgressBounds(made: nat, total: nat)
    requires made <= total
    ensures 0 <= Progress(made + 1, total) <= 100
    ensures Progress(made + 1, total) == 100 <==> made == total > 0
  {
    if total > 0 {
      var x := made * 100;
      assert x == (x / total) * total + x % total;
      if x / total > 100 {
        ProductAtMost(101, total, x / total, total);
      } else if x / total == 100 {
        assert x >= 100 * total;
      } else {
        ProductAtMost(x / total, total, 99, total);
      }
    }
  }

  lemma ProgressIsTruncated(runId: int, total: int)
    ensures var p, x := Progress(runId, total), (runId - 1) * 100;
      && (total <= 0 ==> p == 0)
      && (total > 0 && x >= 0 ==> p * total <= x < p * total + total)
      && (total > 0 && x < 0 ==> p * total - total < x <= p * total)
  {
    if total > 0 {
      var x := (runId - 1) * 100;
      var y := if x >= 0 then x else -x;
      assert y == (y / total) * total + y % total;
      assert (-(y / total)) * total == -((y / total) * total);
    }
  }

  /** At every moment of a search, cancelled or not, the reported progress is a percentage; it is 100
      exactly when the runs made are as many as announced, and otherwise their share of them rounded down. */
  lemma ProgressOfSearch(strategy: string, allTAs: seq<string>, allTimeFrames: seq<string>, risks: seq<real>, made: seq<TestRun>)
    requires made <= SearchRuns(strategy, allTAs, allTimeFrames, risks)
    ensures var total := TotalRuns(allTAs, allTimeFrames, risks);
      && |made| <= total
      && 0 <= Progress(|made| + 1, total) <= 100
      && (Progress(|made| + 1, total) == 100 <==> |made| == total > 0)
      && (total > 0 ==> Progress(|made| + 1, total) * total <= |made| * 100 < Progress(|made| + 1, total) * total + total)
  {
    ProgressIsTruncated(|made| + 1, TotalRuns(allTAs, allTimeFrames, risks));
    SearchIsWithinTotal(strategy, allTAs, allTimeFrames, risks);
    ProgressBounds(|made|, TotalRuns(allTAs, allTimeFrames, risks));
  }

  /** A search that is not cancelled ends at 100 exactly when neither list has more than three elements:
      the announced total counts all subsets, of which the search skips some beyond that. */
  lemma FullProgressExactly(strategy: string, allTAs: seq<string>, allTimeFrames: seq<string>, risks: seq<real>)
    requires ProperElements(allTAs, Some(strategy)) && ProperElements(allTimeFrames, None)
    requires allTAs != [] && allTimeFrames != [] && risks != []
    ensures Progress(|SearchRuns(strategy, allTAs, allTimeFrames, risks)| + 1, TotalRuns(allTAs, allTimeFrames, risks)) == 100
      <==> |allTAs| <= 3 && |allTimeFrames| <= 3
  {
    CountsExactly(allTAs, allTimeFrames, Some(strategy));
    var evaluators, timeFrames := |Enumeration(allTAs, Some(strategy))|, |Enumeration(allTimeFrames, None)|;
    AllRunsCount(risks, Enumeration(allTAs, Some(strategy)), Enumeration(allTimeFrames, None), timeFrames * evaluators);
    ProductsExactly(|risks|, timeFrames, evaluators, Pow2(|allTimeFrames|) - 1, Pow2(|allTAs|) - 1);
    ProgressOfSearch(strategy, allTAs, allTimeFrames, risks, SearchRuns(strategy, allTAs, allTimeFrames, risks));
  }

  lemma {:induction false} CountsExactly(allTAs: seq<string>, allTimeFrames: seq<string>, strategy: Option<string>)
    requires ProperElements(allTAs, strategy) && ProperElements(allTimeFrames, None)
    requires allTAs != [] && allTimeFrames != []
    ensures var evaluators, timeFrames := |Enumeration(allTAs, strategy)|, |Enumeration(allTimeFrames, None)|;
      var a, b := Pow2(|allTAs|) - 1, Pow2(|allTimeFrames|) - 1;
      a > 0 && b > 0 && evaluators <= a && timeFrames <= b &&
      (evaluators == a <==> |allTAs| <= 3) && (timeFrames == b <==> |allTimeFrames| <= 3)
  {
    Pow2Monotonic(1, |allTAs|);
    Pow2Monotonic(1, |allTimeFrames|);
    EnumerationIsSmall(allTAs, strategy);
    EnumerationIsSmall(allTimeFrames, None);
    CompleteUpToThree(allTAs, strategy);
    CompleteUpToThree(allTimeFrames, None);
  }

  lemma ProductsExactly(risks: nat, x: nat, y: nat, a: nat, b: nat)
    requires risks > 0 && a > 0 && b > 0 && x <= a && y <= b
    ensures risks * (x * y) == risks * (a * b) <==> x == a && y == b
    ensures risks * (a * b) > 0
  {
    ProductAtMost(1, 1, a, b);
    ProductAtMost(x, y, a, b);
    ProductEquals(x, y, a, b);
    ProductEquals(risks, x * y, risks, a * b);
    ProductAtMost(1, 1, risks, a * b);
  }

  /** Between the announcement of a new total and the reset of the run counter, the counter is still that
      of the search before (0 before the first one): the progress read then is a percentage exactly when
      the runs counted before fit the new total. */
  lemma StaleProgress(runId: int, total: int)
    ensures 0 <= Progress(runId, total) <= 100 <==> total <= 0 || -total < (runId - 1) * 100 < 101 * total
  {
    if total > 0 {
      var x := (runId - 1) * 100;
      if x >= 0 {
        QuotientBelow(x, total, 101);
      } else {
        QuotientBelow(-x, total, 1);
      }
    }
  }

  lemma QuotientBelow(x: nat, divisor: nat, bound: nat)
    requires divisor > 0
    ensures x / divisor < bound <==> x < bound * divisor
  {
    var q := x / divisor;
    assert x == q * divisor + x % divisor;
    if q < bound {
      ProductAtMost(q + 1, divisor, bound, divisor);
      NextMultiple(q, divisor);
    } else {
      ProductAtMost(bound, divisor, q, divisor);
    }
  }

  /** Before a first search that is for all totals above 100 only; after a search of `made` runs, for all
      new totals that `made` does not exceed by a hundredth or more. */
  lemma StaleProgressOfSearches(made: nat, total: nat)
    requires total > 0
    ensures 0 <= Progress(0, total) <= 100 <==> total > 100
    ensures 0 <= Progress(made + 1, total) <= 100 <==> made * 100 < 101 * total
  {
    StaleProgress(0, total);
    StaleProgress(made + 1, total);
  }

  // ---------- no run twice ----------

  lemma {:induction false} DistinctConcat<T>(a: seq<T>, b: seq<T>)
    requires Distinct(a) && Distinct(b) && forall x :: x in a ==> x !in b
    ensures Distinct(a + b)
  {
    if a == [] {
      assert a + b == b;
    } else {
      assert a[0] in a && (forall x :: x in a[1..] ==> x in a);
      DistinctConcat(a[1..], b);
      assert (a + b)[1..] == a[1..] + b;
    }
  }

  lemma {:induction false} DistinctFront<T>(list: seq<T>)
    requires list != [] && Distinct(list)
    ensures var n := |list| - 1; Distinct(list[..n]) && list[n] !in list[..n]
  {
    var n := |list| - 1;
    if n > 0 {
      DistinctFront(list[1..]);
      assert list[..n][1..] == list[1..][..n - 1];
      assert list[..n] == [list[0]] + list[1..][..n - 1];
      assert list[n] == list[1..][n - 1];
    }
  }

  lemma {:induction false} RunsOfRiskMembers(risk: real, evaluators: seq<set<string>>, timeFrames: seq<set<string>>)
    ensures forall x :: x in RunsOfRisk(risk, evaluators, timeFrames) ==> x.risk == risk && x.evaluators in evaluators
    decreases |evaluators|
  {
    var n := |evaluators| - 1;
    if n >= 0 {
      RunsOfRiskMembers(risk, evaluators[..n], timeFrames);
      assert evaluators == evaluators[..n] + [evaluators[n]];
    }
  }

  lemma {:induction false} RunsOfRiskDiffer(risk: real, evaluators: seq<set<string>>, timeFrames: seq<set<string>>)
    requires Distinct(evaluators) && Distinct(timeFrames)
    ensures Distinct(RunsOfRisk(risk, evaluators, timeFrames))
    decreases |evaluators|
  {
    var n := |evaluators| - 1;
    if n >= 0 {
      var last := RunsOf(risk, evaluators[n], timeFrames);
      DistinctFront(evaluators);
      RunsOfRiskDiffer(risk, evaluators[..n], timeFrames);
      RunsOfRiskMembers(risk, evaluators[..n], timeFrames);
      forall i, j | 0 <= i < j < |last| ensures last[i] != last[j] {
        DistinctAt(timeFrames, i, j);
      }
      DistinctFromPairs(last);
      DistinctConcat(RunsOfRisk(risk, evaluators[..n], timeFrames), last);
    }
  }

  lemma {:induction false} AllRunsMembers(risks: seq<real>, evaluators: seq<set<string>>, timeFrames: seq<set<string>>)
    ensures forall x :: x in AllRuns(risks, evaluators, timeFrames) ==> x.risk in risks
    decreases |risks|
  {
    var n := |risks| - 1;
    if n >= 0 {
      AllRunsMembers(risks[..n], evaluators, timeFrames);
      RunsOfRiskMembers(risks[n], evaluators, timeFrames);
      assert risks == risks[..n] + [risks[n]];
    }
  }

  lemma {:induction false} RunsOfRiskExactly(risk: real, evaluators: seq<set<string>>, timeFrames: seq<set<string>>, x: TestRun)
    ensures x in RunsOfRisk(risk, evaluators, timeFrames) <==>
      x.risk == risk && x.evaluators in evaluators && x.timeFrames in timeFrames
    decreases |evaluators|
  {
    var n := |evaluators| - 1;
    if n >= 0 {
      RunsOfRiskExactly(risk, evaluators[..n], timeFrames, x);
      RunsOfExactly(risk, evaluators[n], timeFrames, x);
      assert evaluators == evaluators[..n] + [evaluators[n]];
    }
  }

  lemma RunsOfExactly(risk: real, evaluators: set<string>, timeFrames: seq<set<string>>, x: TestRun)
    ensures x in RunsOf(risk, evaluators, timeFrames) <==>
      x.risk == risk && x.evaluators == evaluators && x.timeFrames in timeFrames
  {
    var runs := RunsOf(risk, evaluators, timeFrames);
    if x.risk == risk && x.evaluators == evaluators && x.timeFrames in timeFrames {
      var i :| 0 <= i < |timeFrames| && timeFrames[i] == x.timeFrames;
      assert runs[i] == x;
    }
  }

  /** The search runs every risk with every evaluator configuration with every time frame configuration, and
      nothing else. */
  lemma {:induction false} AllRunsExactly(risks: seq<real>, evaluators: seq<set<string>>, timeFrames: seq<set<string>>, x: TestRun)
    ensures x in AllRuns(risks, evaluators, timeFrames) <==>
      x.risk in risks && x.evaluators in evaluators && x.timeFrames in timeFrames
    decreases |risks|
  {
    var n := |risks| - 1;
    if n >= 0 {
      AllRunsExactly(risks[..n], evaluators, timeFrames, x);
      RunsOfRiskExactly(risks[n], evaluators, timeFrames, x);
      assert risks == risks[..n] + [risks[n]];
    }
  }

  lemma {:induction false} AllRunsDiffer(risks: seq<real>, evaluators: seq<set<string>>, timeFrames: seq<set<string>>)
    requires Distinct(risks) && Distinct(evaluators) && Distinct(timeFrames)
    ensures Distinct(AllRuns(risks, evaluators, timeFrames))
    decreases |risks|
  {
    var n := |risks| - 1;
    if n >= 0 {
      DistinctFront(risks);
      AllRunsDiffer(risks[..n], evaluators, timeFrames);
      AllRunsMembers(risks[..n], evaluators, timeFrames);
      RunsOfRiskDiffer(risks[n], evaluators, timeFrames);
      RunsOfRiskMembers(risks[n], evaluators, timeFrames);
      DistinctConcat(AllRuns(risks[..n], evaluators, timeFrames), RunsOfRisk(risks[n], evaluators, timeFrames));
    }
  }

  /** Each run of a search has its own risk, evaluators and time frames. */
  lemma NoRunTwice(strategy: string, allTAs: seq<string>, allTimeFrames: seq<string>, risks: seq<real>)
    requires Distinct(risks)
    ensures Distinct(SearchRuns(strategy, allTAs, allTimeFrames, risks))
  {
    EnumerationIsSmall(allTAs, Some(strategy));
    EnumerationIsSmall(allTimeFrames, None);
    AllRunsDiffer(risks, Enumeration(allTAs, Some(strategy)), Enumeration(allTimeFrames, None));
  }
}
