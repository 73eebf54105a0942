/** How the stored schedule row evolves outside any concurrency: draining completed runs in batches
    and saving newly generated runs over an existing row. */
module OptimizerSchedule {
  import opened Options
  import opened OptimizerRuns

  // ---------- draining ----------

  /** The runs not completed, in their order. */
  function Without(runs: seq<Run>, completed: set<Hash>): seq<Run> {
    if runs == [] then []
    else (if RunHash(runs[0]) in completed then [] else [runs[0]]) + Without(runs[1..], completed)
  }

  /** One database update after a non-empty drain: the row is rewritten only when it still has a
      first run with inputs. */
  function Rewritten(row: Option<seq<Run>>, completed: set<Hash>): Option<seq<Run>> {
    match row
    case None => None
    case Some(runs) =>
      var left := Without(runs, completed);
      if left != [] && left[0] != [] then Some(left) else row
  }

  /** `_update_runs_from_done_queue` for a batch of completed hashes. */
  function Drained(row: Option<seq<Run>>, completed: set<Hash>): Option<seq<Run>> {
    if completed == {} then row else Rewritten(row, completed)
  }

  function DrainedAll(row: Option<seq<Run>>, batches: seq<set<Hash>>): Option<seq<Run>>
    decreases |batches|
  {
    var n := |batches|;
    if n == 0 then row else Drained(DrainedAll(row, batches[..n - 1]), batches[n - 1])
  }

  function Union(batches: seq<set<Hash>>): set<Hash> {
    set b, h | b in batches && h in b :: h
  }

  lemma {:induction false} WithoutMembers(runs: seq<Run>, completed: set<Hash>)
    ensures forall run :: run in Without(runs, completed) <==> run in runs && RunHash(run) !in completed
  {
    if runs != [] {
      WithoutMembers(runs[1..], completed);
      assert runs == [runs[0]] + runs[1..];
    }
  }

  lemma WithoutHashes(runs: seq<Run>, completed: set<Hash>)
    ensures HashSet(Without(runs, completed)) == HashSet(runs) - completed
    ensures Without(runs, completed) == [] <==> HashSet(runs) <= completed
  {
    WithoutMembers(runs, completed);
    var left := Without(runs, completed);
    assert left != [] ==> left[0] in runs;
    if left == [] {
      forall h | h in HashSet(runs) ensures h in completed {
        var run :| run in runs && RunHash(run) == h;
        assert run !in left;
      }
    }
  }

  lemma {:induction false} WithoutTwice(runs: seq<Run>, a: set<Hash>, b: set<Hash>)
    ensures Without(Without(runs, a), b) == Without(runs, a + b)
  {
    if runs != [] {
      WithoutTwice(runs[1..], a, b);
      var rest := Without(runs[1..], a);
      if RunHash(runs[0]) !in a {
        assert ([runs[0]] + rest)[1..] == rest;
      } else {
        assert [] + rest == rest;
      }
    }
  }

  lemma {:induction false} WithoutNothing(runs: seq<Run>)
    ensures Without(runs, {}) == runs
  {
    if runs != [] {
      WithoutNothing(runs[1..]);
    }
  }

  lemma UnionSplit(batches: seq<set<Hash>>)
    requires batches != []
    ensures Union(batches) == Union(batches[..|batches| - 1]) + batches[|batches| - 1]
  {
    var n := |batches| - 1;
    assert batches == batches[..n] + [batches[n]];
  }

  /** Drains compose: while a run remains after all of them, any sequence of batches leaves the row
      that one drain of their union leaves, whatever the batches and their order. */
  lemma {:induction false} DrainsCompose(runs: seq<Run>, batches: seq<set<Hash>>)
    requires NoEmptyRun(runs)
    requires Without(runs, Union(batches)) != []
    ensures DrainedAll(Some(runs), batches) == Some(Without(runs, Union(batches)))
    decreases |batches|
  {
    var n := |batches|;
    if n == 0 {
      WithoutNothing(runs);
      assert Union(batches) == {};
    } else {
      var front, last := batches[..n - 1], batches[n - 1];
      UnionSplit(batches);
      WithoutHashes(runs, Union(front));
      WithoutHashes(runs, Union(batches));
      DrainsCompose(runs, front);
      WithoutTwice(runs, Union(front), last);
      WithoutMembers(runs, Union(batches));
      if last == {} {
        assert Union(batches) == Union(front);
      } else {
        assert Without(runs, Union(batches))[0] in runs;
      }
    }
  }

  /** Once a batch completes the last remaining runs the row is left unwritten for good: with batches
      that share no hash, as a run is done once, it stays what the batches before that one left. */
  lemma {:induction false} FinalDrainLeavesRow(runs: seq<Run>, batches: seq<set<Hash>>, k: nat)
    requires NoEmptyRun(runs)
    requires forall i, j :: 0 <= i < j < |batches| ==> batches[i] !! batches[j]
    requires k < |batches|
    requires Without(runs, Union(batches[..k])) != []
    requires Without(runs, Union(batches[..k + 1])) == []
    ensures DrainedAll(Some(runs), batches) == Some(Without(runs, Union(batches[..k])))
    decreases |batches|
  {
    var n := |batches|;
    var front, last := batches[..n - 1], batches[n - 1];
    assert front[..k] == batches[..k];
    if k == n - 1 {
      DrainsCompose(runs, front);
      assert front == batches[..k] && batches == batches[..k + 1];
      UnionSplit(batches);
      WithoutTwice(runs, Union(front), last);
    } else {
      assert front[..k + 1] == batches[..k + 1];
      FinalDrainLeavesRow(runs, front, k);
      OnlyLastBatchRemained(runs, batches, k);
      WithoutOthers(Without(runs, Union(batches[..k])), last);
    }
  }

  lemma OnlyLastBatchRemained(runs: seq<Run>, batches: seq<set<Hash>>, k: nat)
    requires k < |batches|
    requires Without(runs, Union(batches[..k + 1])) == []
    ensures HashSet(Without(runs, Union(batches[..k]))) <= batches[k]
  {
    WithoutHashes(runs, Union(batches[..k]));
    WithoutHashes(runs, Union(batches[..k + 1]));
    UnionSplit(batches[..k + 1]);
    assert batches[..k + 1][..k] == batches[..k];
  }

  lemma {:induction false} WithoutOthers(runs: seq<Run>, completed: set<Hash>)
    requires HashSet(runs) !! completed
    ensures Without(runs, completed) == runs
  {
    if runs != [] {
      assert runs[0] in runs && RunHash(runs[0]) in HashSet(runs);
      assert HashSet(runs[1..]) <= HashSet(runs);
      WithoutOthers(runs[1..], completed);
    }
  }

  // ---------- saving ----------

  function NonEmptyRuns(runs: seq<Run>): seq<Run> {
    if runs == [] then []
    else (if runs[0] == [] then [] else [runs[0]]) + NonEmptyRuns(runs[1..])
  }

  function Merged(existing: seq<Run>, runs: seq<Run>): seq<Run> {
    UpsertAll(UpsertAll([], NonEmptyRuns(existing)), NonEmptyRuns(runs))
  }

  /** `_save_run_schedule`: a first save stores the runs as they are. */
  function Saved(row: Option<seq<Run>>, runs: seq<Run>): Option<seq<Run>> {
    match row
    case None => Some(runs)
    case Some(existing) => Some(Merged(existing, runs))
  }

  lemma {:induction false} NonEmptyRunsMembers(runs: seq<Run>)
    ensures forall run :: run in NonEmptyRuns(runs) <==> run in runs && run != []
  {
    if runs != [] {
      NonEmptyRunsMembers(runs[1..]);
      assert runs == [runs[0]] + runs[1..];
    }
  }

  lemma {:induction false} NonEmptyRunsIdentity(runs: seq<Run>)
    requires NoEmptyRun(runs)
    ensures NonEmptyRuns(runs) == runs
  {
    if runs != [] {
      assert forall run :: run in runs <==> run == runs[0] || run in runs[1..];
      assert runs[0] in runs && runs[0] != [];
      NonEmptyRunsIdentity(runs[1..]);
    }
  }

  lemma {:induction false} ByHashOfDistinct(runs: seq<Run>)
    requires DistinctHashes(runs)
    ensures UpsertAll([], runs) == runs
    decreases |runs|
  {
    var n := |runs|;
    if n > 0 {
      ByHashOfDistinct(runs[..n - 1]);
      assert runs == runs[..n - 1] + [runs[n - 1]];
    }
  }

  /** A list extending another with new hashes only cannot have the same hashes. */
  lemma NoNewHash(runs: seq<Run>, longer: seq<Run>)
    requires DistinctHashes(longer) && HashSet(longer) == HashSet(runs)
    requires |runs| <= |longer|
    requires forall i {:trigger RunHash(runs[i])} :: 0 <= i < |runs| ==> RunHash(longer[i]) == RunHash(runs[i])
    ensures |longer| == |runs|
  {
    if |longer| > |runs| {
      NoNewIndex(runs, longer, |runs|);
    }
  }

  lemma NoNewIndex(runs: seq<Run>, longer: seq<Run>, i: nat)
    requires DistinctHashes(longer) && HashSet(longer) == HashSet(runs)
    requires |runs| <= |longer| && i < |longer|
    requires forall i {:trigger RunHash(runs[i])} :: 0 <= i < |runs| ==> RunHash(longer[i]) == RunHash(runs[i])
    ensures i < |runs|
  {
    var h := RunHash(longer[i]);
    assert longer[i] in longer && h in HashSet(runs);
    var run :| run in runs && RunHash(run) == h;
    var j :| 0 <= j < |runs| && runs[j] == run;
    assert RunHash(runs[j]) == h;
  }

  /** Assigning the same runs again changes nothing. */
  lemma UpsertAllTwice(runs: seq<Run>, added: seq<Run>)
    requires DistinctHashes(runs)
    ensures UpsertAll(UpsertAll(runs, added), added) == UpsertAll(runs, added)
  {
    var once := UpsertAll(runs, added);
    var twice := UpsertAll(once, added);
    UpsertAllMerges(runs, added);
    UpsertAllMerges(once, added);
    NoNewHash(once, twice);
    forall i | 0 <= i < |once| ensures twice[i] == once[i] {
      assert RunHash(twice[i]) == RunHash(once[i]);
    }
  }

  /** A saved-over row: the union of both schedules' non-empty runs, each hash once, the existing ones first
      as they first come, then the new ones as they first come, the newly generated details kept where both
      have a hash and the old ones elsewhere. */
  lemma {:induction false} MergeIsUnion(existing: seq<Run>, runs: seq<Run>)
    ensures var m := Merged(existing, runs); var base := ByHash(NonEmptyRuns(existing));
      && DistinctHashes(m) && NoEmptyRun(m)
      && HashSet(m) == HashSet(NonEmptyRuns(existing)) + HashSet(NonEmptyRuns(runs))
      && |base| <= |m|
      && (forall i :: 0 <= i < |base| ==> RunHash(m[i]) == RunHash(base[i]))
      && (forall i, j :: 0 <= i < j < |base| ==>
            IndexOf(NonEmptyRuns(existing), RunHash(m[i])) < IndexOf(NonEmptyRuns(existing), RunHash(m[j])))
      && (forall i, j :: |base| <= i < j < |m| ==>
            IndexOf(NonEmptyRuns(runs), RunHash(m[i])) < IndexOf(NonEmptyRuns(runs), RunHash(m[j])))
      && (forall i :: 0 <= i < |m| && RunHash(m[i]) in HashSet(NonEmptyRuns(runs)) ==>
            m[i] == LastWith(NonEmptyRuns(runs), RunHash(m[i])))
      && (forall i :: 0 <= i < |m| && RunHash(m[i]) !in HashSet(NonEmptyRuns(runs)) ==>
            RunHash(m[i]) in HashSet(NonEmptyRuns(existing)) &&
            m[i] == LastWith(NonEmptyRuns(existing), RunHash(m[i])))
  {
    var base := ByHash(NonEmptyRuns(existing));
    UpsertAllMerges([], NonEmptyRuns(existing));
    UpsertAllMerges(base, NonEmptyRuns(runs));
    var m := Merged(existing, runs);
    NonEmptyRunsMembers(existing);
    NonEmptyRunsMembers(runs);
    forall run | run in m ensures run != [] {
      var i :| 0 <= i < |m| && m[i] == run;
      if RunHash(m[i]) !in HashSet(NonEmptyRuns(runs)) {
        assert base[i] == LastWith(NonEmptyRuns(existing), RunHash(base[i]));
      }
    }
  }

  /** Saving the same runs over a merged row changes nothing. */
  lemma MergeIsIdempotent(existing: seq<Run>, runs: seq<Run>)
    ensures Merged(Merged(existing, runs), runs) == Merged(existing, runs)
  {
    var m := Merged(existing, runs);
    MergeIsUnion(existing, runs);
    NonEmptyRunsIdentity(m);
    ByHashOfDistinct(m);
    UpsertAllMerges([], NonEmptyRuns(existing));
    UpsertAllTwice(UpsertAll([], NonEmptyRuns(existing)), NonEmptyRuns(runs));
  }

  /** A first save is not merged, so repeating it changes the row exactly when the generated runs hold
      an empty run or the same hash twice. */
  lemma FirstSaveRepeats(runs: seq<Run>)
    ensures Saved(Saved(None, runs), runs) == Saved(None, runs) <==> DistinctHashes(runs) && NoEmptyRun(runs)
  {
    MergeIsUnion(runs, runs);
    if DistinctHashes(runs) && NoEmptyRun(runs) {
      NonEmptyRunsIdentity(runs);
      UpsertAllTwice([], runs);
      ByHashOfDistinct(runs);
    }
  }

  /** What a stored row may look like: an empty run is only ever stored alone. */
  predicate WellShaped(runs: seq<Run>) {
    NoEmptyRun(runs) || runs == [[]]
  }

  /** Every update keeps the row well shaped. */
  lemma RowStaysWellShaped(row: seq<Run>, runs: seq<Run>, completed: set<Hash>)
    requires WellShaped(row) && WellShaped(runs)
    ensures WellShaped(Saved(None, runs).value) && WellShaped(Saved(Some(row), runs).value)
    ensures Drained(Some(row), completed).Some? && WellShaped(Drained(Some(row), completed).value)
  {
    MergeIsUnion(row, runs);
    WithoutMembers(row, completed);
  }
}
