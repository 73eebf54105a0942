/** Scheduled optimizer runs: their hash, and the three ways the stored schedule row changes
    (read as a dictionary by hash, drained of completed runs, merged with newly generated runs).
    A row's "runs" dictionary is always keyed 0..m-1 in order, so it is a sequence here. */
module OptimizerRuns {
  import opened Options

  datatype Value =
    | IntValue(i: int)
    | BoolValue(b: bool)
    | FloatValue(r: real)
    | TextValue(s: string)
    | ListValue(items: seq<Value>)

  datatype RunInput = RunInput(userInput: string, tentacle: seq<string>, value: Value)

  type Run = seq<RunInput>
  datatype Hash = Digest(inputs: seq<RunInput>)

  /** Python's bool is an int: both are hashed as the float they convert to. */
  function NormalizedInput(x: RunInput): RunInput {
    match x.value
    case IntValue(i) => x.(value := FloatValue(i as real))
    case BoolValue(b) => x.(value := FloatValue(if b then 1.0 else 0.0))
    case _ => x
  }

  /** The SHA-256 digest of the JSON text is taken to be injective, so the normalised run stands for it. */
  function RunHash(run: Run): Hash {
    Digest(seq(|run|, i requires 0 <= i < |run| => NormalizedInput(run[i])))
  }

  /** The number a value is hashed as, None for text and lists. */
  function AsNumber(v: Value): Option<real> {
    match v
    case IntValue(i) => Some(i as real)
    case BoolValue(b) => Some(if b then 1.0 else 0.0)
    case FloatValue(r) => Some(r)
    case _ => None
  }

  /** Runs share a hash if and only if they agree on everything but how equal numbers are written. */
  lemma SameHashExactly(a: Run, b: Run)
    ensures RunHash(a) == RunHash(b) <==>
      |a| == |b| && forall i :: 0 <= i < |a| ==>
        a[i].userInput == b[i].userInput && a[i].tentacle == b[i].tentacle &&
        (a[i].value == b[i].value ||
         (AsNumber(a[i].value).Some? && AsNumber(a[i].value) == AsNumber(b[i].value)))
  {
    var p, q := RunHash(a).inputs, RunHash(b).inputs;
    if p == q {
      forall i | 0 <= i < |a|
        ensures NormalizedInput(a[i]) == NormalizedInput(b[i])
      {
        assert p[i] == q[i];
      }
    }
  }

  function HashSet(runs: seq<Run>): set<Hash> {
    set run | run in runs :: RunHash(run)
  }

  predicate DistinctHashes(runs: seq<Run>) {
    forall i, j :: 0 <= i < j < |runs| ==> RunHash(runs[i]) != RunHash(runs[j])
  }

  predicate NoEmptyRun(runs: seq<Run>) {
    forall run :: run in runs ==> run != []
  }

  // ---------- reading the row as a dictionary ----------

  function IndexOf(runs: seq<Run>, h: Hash): (i: nat)
    ensures i <= |runs|
    ensures i < |runs| ==> RunHash(runs[i]) == h
    ensures forall j :: 0 <= j < i ==> RunHash(runs[j]) != h
  {
    if runs == [] then 0
    else if RunHash(runs[0]) == h then 0
    else
      var i := IndexOf(runs[1..], h);
      assert forall j :: 1 <= j < i + 1 ==> runs[j] == runs[1..][j - 1];
      i + 1
  }

  /** A dictionary assignment: an existing hash keeps its position and takes the new details. */
  function Upsert(runs: seq<Run>, run: Run): seq<Run> {
    var i := IndexOf(runs, RunHash(run));
    if i < |runs| then runs[i := run] else runs + [run]
  }

  function UpsertAll(runs: seq<Run>, added: seq<Run>): seq<Run>
    decreases |added|
  {
    var n := |added|;
    if n == 0 then runs else Upsert(UpsertAll(runs, added[..n - 1]), added[n - 1])
  }

  /** The insertion-ordered dictionary of the row's runs by hash. */
  function ByHash(runs: seq<Run>): seq<Run> {
    UpsertAll([], runs)
  }

  function HashesOf(runs: seq<Run>): seq<Hash> {
    seq(|runs|, i requires 0 <= i < |runs| => RunHash(runs[i]))
  }

  function DetailsByHash(runs: seq<Run>): map<Hash, Run> {
    map h | h in HashSet(runs) :: DetailsOf(ByHash(runs), h)
  }

  function DetailsOf(runs: seq<Run>, h: Hash): Run {
    var i := IndexOf(runs, h);
    if i < |runs| then runs[i] else []
  }

  /** The run that an assignment of every element of `added`, in order, leaves under hash `h`. */
  function LastWith(added: seq<Run>, h: Hash): (run: Run)
    requires h in HashSet(added)
    ensures run in added && RunHash(run) == h
    decreases |added|
  {
    var n := |added| - 1;
    if RunHash(added[n]) == h then added[n]
    else
      assert h in HashSet(added[..n]) by {
        var run :| run in added && RunHash(run) == h;
        assert run in added[..n];
      }
      LastWith(added[..n], h)
  }

  lemma HashSetOfConcat(a: seq<Run>, b: seq<Run>)
    ensures HashSet(a + b) == HashSet(a) + HashSet(b)
  {
    assert forall run :: run in a + b <==> run in a || run in b;
  }

  lemma IndexOfInSet(runs: seq<Run>, h: Hash)
    ensures IndexOf(runs, h) < |runs| <==> h in HashSet(runs)
  {
    var i := IndexOf(runs, h);
    if i < |runs| {
      assert runs[i] in runs;
    }
  }

  lemma HashSetOfLast(added: seq<Run>)
    requires added != []
    ensures var n := |added| - 1; HashSet(added) == HashSet(added[..n]) + {RunHash(added[n])}
  {
    var n := |added| - 1;
    assert added == added[..n] + [added[n]];
    HashSetOfConcat(added[..n], [added[n]]);
    assert HashSet([added[n]]) == {RunHash(added[n])};
  }

  lemma {:induction false} UpsertAllSets(runs: seq<Run>, added: seq<Run>)
    requires DistinctHashes(runs)
    ensures var r := UpsertAll(runs, added);
      && DistinctHashes(r)
      && HashSet(r) == HashSet(runs) + HashSet(added)
      && |runs| <= |r|
    decreases |added|
  {
    var n := |added| - 1;
    if n >= 0 {
      UpsertAllSets(runs, added[..n]);
      UpsertSets(UpsertAll(runs, added[..n]), added[n]);
      HashSetOfLast(added);
    }
  }

  lemma {:induction false} UpsertAllKeepsPositions(runs: seq<Run>, added: seq<Run>, i: nat)
    requires DistinctHashes(runs) && i < |runs| <= |UpsertAll(runs, added)|
    ensures RunHash(UpsertAll(runs, added)[i]) == RunHash(runs[i])
    decreases |added|
  {
    var n := |added| - 1;
    if n >= 0 {
      UpsertAllSets(runs, added[..n]);
      UpsertAllKeepsPositions(runs, added[..n], i);
    }
  }

  lemma {:induction false} UpsertAllEntry(runs: seq<Run>, added: seq<Run>, i: nat)
    requires DistinctHashes(runs) && i < |UpsertAll(runs, added)|
    ensures var r := UpsertAll(runs, added);
      if RunHash(r[i]) in HashSet(added) then r[i] == LastWith(added, RunHash(r[i]))
      else i < |runs| && r[i] == runs[i]
    decreases |added|
  {
    var n := |added| - 1;
    if n >= 0 {
      var before := UpsertAll(runs, added[..n]);
      UpsertAllSets(runs, added[..n]);
      HashSetOfLast(added);
      if i != IndexOf(before, RunHash(added[n])) {
        UpsertAllEntry(runs, added[..n], i);
      }
    }
  }

  lemma {:induction false} IndexOfInFront(added: seq<Run>, n: nat, h: Hash)
    requires n <= |added|
    ensures h in HashSet(added[..n]) ==> IndexOf(added, h) == IndexOf(added[..n], h)
    ensures h !in HashSet(added[..n]) ==> IndexOf(added, h) >= n
  {
    IndexOfInSet(added[..n], h);
    var i, j := IndexOf(added, h), IndexOf(added[..n], h);
    assert j < n ==> added[j] == added[..n][j];
    assert i < n ==> added[..n][i] == added[i];
  }

  lemma UpsertOne(runs: seq<Run>, run: Run)
    ensures var r := Upsert(runs, run);
      && |r| == (if RunHash(run) in HashSet(runs) then |runs| else |runs| + 1)
      && (forall k :: 0 <= k < |runs| ==> RunHash(r[k]) == RunHash(runs[k]))
      && (RunHash(run) !in HashSet(runs) ==> r[|runs|] == run)
  {
    IndexOfInSet(runs, RunHash(run));
  }

  lemma NewIsBehind(added: seq<Run>, h: Hash)
    requires added != [] && h in HashSet(added[..|added| - 1]) && RunHash(added[|added| - 1]) !in HashSet(added[..|added| - 1])
    ensures IndexOf(added, h) < IndexOf(added, RunHash(added[|added| - 1]))
  {
    var n := |added| - 1;
    IndexOfInFront(added, n, h);
    IndexOfInFront(added, n, RunHash(added[n]));
    IndexOfInSet(added[..n], h);
  }

  /** New hashes are appended in the order in which they first come. */
  lemma {:induction false} UpsertAllAppends(runs: seq<Run>, added: seq<Run>, i: nat, j: nat)
    requires DistinctHashes(runs) && |runs| <= i < j < |UpsertAll(runs, added)|
    ensures var r := UpsertAll(runs, added); IndexOf(added, RunHash(r[i])) < IndexOf(added, RunHash(r[j]))
    decreases |added|
  {
    var n := |added| - 1;
    var before, run := UpsertAll(runs, added[..n]), added[n];
    UpsertOne(before, run);
    UpsertAllSets(runs, added[..n]);
    AppendedIsNew(runs, added[..n], i);
    if j < |before| {
      UpsertAllAppends(runs, added[..n], i, j);
      AppendedIsNew(runs, added[..n], j);
      IndexOfInFront(added, n, RunHash(before[i]));
      IndexOfInFront(added, n, RunHash(before[j]));
    } else {
      NewIsBehind(added, RunHash(before[i]));
    }
  }

  lemma AppendedIsNew(runs: seq<Run>, added: seq<Run>, i: nat)
    requires DistinctHashes(runs) && |runs| <= i < |UpsertAll(runs, added)|
    ensures RunHash(UpsertAll(runs, added)[i]) in HashSet(added)
  {
    UpsertAllEntry(runs, added, i);
  }

  /** What a chain of dictionary assignments leaves: no hash twice, old positions kept, new hashes behind them
      as they first come, new details winning, the hashes being the union, and old entries untouched where
      nothing new came. */
  lemma {:induction false} UpsertAllMerges(runs: seq<Run>, added: seq<Run>)
    requires DistinctHashes(runs)
    ensures var r := UpsertAll(runs, added);
      && DistinctHashes(r)
      && HashSet(r) == HashSet(runs) + HashSet(added)
      && |runs| <= |r|
      && (forall i {:trigger RunHash(runs[i])} :: 0 <= i < |runs| ==> RunHash(r[i]) == RunHash(runs[i]))
      && (forall i {:trigger r[i]} :: 0 <= i < |r| ==>
            if RunHash(r[i]) in HashSet(added) then r[i] == LastWith(added, RunHash(r[i]))
            else i < |runs| && r[i] == runs[i])
      && (forall i, j :: |runs| <= i < j < |r| ==> IndexOf(added, RunHash(r[i])) < IndexOf(added, RunHash(r[j])))
  {
    forall i, j | |runs| <= i < j < |UpsertAll(runs, added)|
      ensures IndexOf(added, RunHash(UpsertAll(runs, added)[i])) < IndexOf(added, RunHash(UpsertAll(runs, added)[j]))
    {
      UpsertAllAppends(runs, added, i, j);
    }
    UpsertAllSets(runs, added);
    var r := UpsertAll(runs, added);
    forall i {:trigger RunHash(runs[i])} | 0 <= i < |runs| ensures RunHash(r[i]) == RunHash(runs[i]) {
      UpsertAllKeepsPositions(runs, added, i);
    }
    forall i {:trigger r[i]} | 0 <= i < |r|
      ensures if RunHash(r[i]) in HashSet(added) then r[i] == LastWith(added, RunHash(r[i]))
        else i < |runs| && r[i] == runs[i]
    {
      UpsertAllEntry(runs, added, i);
    }
  }

  lemma UpsertSets(runs: seq<Run>, run: Run)
    requires DistinctHashes(runs)
    ensures DistinctHashes(Upsert(runs, run))
    ensures HashSet(Upsert(runs, run)) == HashSet(runs) + {RunHash(run)}
  {
    var h := RunHash(run);
    var i := IndexOf(runs, h);
    IndexOfInSet(runs, h);
    var r := Upsert(runs, run);
    forall k | k in HashSet(r) ensures k in HashSet(runs) + {h} {
      var x :| x in r && RunHash(x) == k;
      var j :| 0 <= j < |r| && r[j] == x;
      assert j == i || r[j] == runs[j];
    }
    forall k | k in HashSet(runs) + {h} ensures k in HashSet(r) {
      if k == h {
        assert r[i] in r;
      } else {
        var x :| x in runs && RunHash(x) == k;
        var j :| 0 <= j < |runs| && runs[j] == x;
        assert r[j] == x;
      }
    }
  }

  /** The dictionary a process reads from a row maps exactly the row's hashes, each to a run of the row
      with that hash. */
  lemma DetailsFitRow(runs: seq<Run>, h: Hash)
    requires h in HashSet(runs)
    ensures h in DetailsByHash(runs)
    ensures var run := DetailsByHash(runs)[h]; run in runs && RunHash(run) == h
  {
    var d := ByHash(runs);
    UpsertAllMerges([], runs);
    IndexOfInSet(d, h);
    var i := IndexOf(d, h);
    assert d[i] == LastWith(runs, RunHash(d[i]));
  }
}
