/** How many configurations the enumeration holds: never more than the non-empty subsets, for any list of
    elements, and all of them exactly for up to three distinct elements. */
module SubsetSearchBound {
  import opened Options
  import opened SubsetSearch
  import opened SubsetSearchExact

  /** A configuration built around an element of the list, out of the list and the default element. */
  ghost predicate IsAround<T(!new)>(all: seq<T>, default: Option<T>, conf: set<T>) {
    && (exists e :: e in all && Base(e, default) <= conf)
    && (forall x :: x in conf ==> x in all || default == Some(x))
  }

  ghost predicate Bounded<T(!new)>(all: seq<T>, default: Option<T>, family: seq<set<T>>) {
    Distinct(family) && forall conf :: conf in family ==> IsAround(all, default, conf)
  }

  lemma {:induction false} GrowWithin<T>(all: seq<T>, elements: seq<T>, conf: set<T>, target: nat, history: seq<set<T>>)
    requires forall x :: x in elements ==> x in all
    ensures conf <= Grow(elements, conf, target, history)
    ensures forall x :: x in Grow(elements, conf, target, history) ==> x in conf || x in all
    decreases |elements|
  {
    if elements != [] {
      assert elements[0] in elements;
      GrowWithin(all, elements[1..], conf, target, history);
      GrowWithin(all, elements[1..], conf + {elements[0]}, target, history);
    }
  }

  lemma AttemptIsBounded<T(!new)>(all: seq<T>, default: Option<T>, history: seq<set<T>>, e: T, k: nat)
    requires e in all && Bounded(all, default, history)
    ensures Bounded(all, default, Attempt(all, e, k, history, default))
  {
    var base, next := Base(e, default), Attempt(all, e, k, history, default);
    GrowWithin(all, all, base, Target(k, default), history);
    if next != history {
      var conf := next[|history|];
      assert next == history + [conf] && IsAround(all, default, conf);
      DistinctAppend(history, conf);
    }
  }

  lemma {:induction false} RemainingIsBounded<T(!new)>(all: seq<T>, default: Option<T>, history: seq<set<T>>, f: nat, k: nat, m: nat)
    requires Bounded(all, default, history)
    ensures Bounded(all, default, Remaining(all, default, history, f, k, m))
    decreases |all| - f, |all| + 1 - k, |all| - m
  {
    var n := |all|;
    if f >= n {
    } else if k > n {
      RemainingIsBounded(all, default, history, f + 1, 1, 0);
    } else if m >= n {
      RemainingIsBounded(all, default, history, f, k + 1, 0);
    } else {
      AttemptIsBounded(all, default, history, all[f], k);
      RemainingIsBounded(all, default, Attempt(all, all[f], k, history, default), f, k, m + 1);
    }
  }

  lemma {:induction false} ElementsAtMost<T>(list: seq<T>)
    ensures |Elements(list)| <= |list|
  {
    if list == [] {
      assert Elements(list) == {};
    } else {
      ElementsAtMost(list[1..]);
      assert list == [list[0]] + list[1..];
      assert Elements(list) == {list[0]} + Elements(list[1..]);
    }
  }

  lemma {:induction false} Pow2Monotonic(a: nat, b: nat)
    requires a <= b
    ensures 1 <= Pow2(a) <= Pow2(b)
  {
    if a > 0 {
      Pow2Monotonic(a - 1, b - 1);
    } else if b > 0 {
      Pow2Monotonic(a, b - 1);
    }
  }

  lemma {:induction false} HoldingAll<T>(family: seq<set<T>>, x: T)
    requires forall conf :: conf in family ==> x in conf
    ensures |Part(family, x, true)| == |family|
  {
    if family != [] {
      assert family[0] in family && x in family[0];
      assert family == [family[0]] + family[1..];
      HoldingAll(family[1..], x);
    }
  }

  /** A bounded family is no larger than the number of non-empty subsets of the list's elements. */
  lemma BoundedIsSmall<T(!new)>(all: seq<T>, default: Option<T>, family: seq<set<T>>)
    requires Bounded(all, default, family)
    ensures |family| <= Pow2(|all|) - 1
  {
    var universe := Elements(all);
    ElementsAtMost(all);
    Pow2Monotonic(|universe|, |all|);
    if default.Some? && default.value !in all {
      var d := default.value;
      HoldingAll(family, d);
      PartMembers(family, d, true);
      PartIsDistinct(family, d, true);
      var part := Part(family, d, true);
      forall s | s in part ensures s <= universe && s != {} {
        assert Restored(s, d, true) in family;
        var e :| e in all && Base(e, default) <= Restored(s, d, true);
        assert e in s;
      }
      NonEmptySubsetsBound(part, universe);
    } else {
      NonEmptySubsetsBound(family, universe);
    }
  }

  /** The enumeration over any list of elements, with repetitions or not, holds each configuration once
      and at most as many as there are non-empty subsets. */
  lemma EnumerationIsSmall<T(!new)>(all: seq<T>, default: Option<T>)
    ensures Distinct(Enumeration(all, default))
    ensures |Enumeration(all, default)| <= Pow2(|all|) - 1
  {
    RemainingIsBounded(all, default, [], 0, 1, 0);
    BoundedIsSmall(all, default, Enumeration(all, default));
  }

  /** With four elements or more, the set of the second, third and fourth is never produced. */
  lemma MissedSubset<T(!new)>(all: seq<T>, default: Option<T>)
    requires ProperElements(all, default) && |all| >= 4
    ensures !IsEnumerated(all, default, Base(all[1], default) + {all[2], all[3]})
  {
    var missed := Base(all[1], default) + {all[2], all[3]};
    DistinctAt(all, 0, 1);
    DistinctAt(all, 0, 2);
    DistinctAt(all, 0, 3);
    DistinctAt(all, 1, 2);
    DistinctAt(all, 1, 3);
    DistinctAt(all, 2, 3);
    forall e | e in all ensures missed != Base(e, default) {
      assert all[1] in missed && all[2] in missed;
    }
    forall e, k, j | e in all && 2 <= k <= j + 2 && j < |Others(all, e)|
      ensures missed != Candidate(all, default, e, k, j)
    {
      CandidateMisses(all, default, e, k, j);
    }
  }

  lemma CandidateMisses<T(!new)>(all: seq<T>, default: Option<T>, e: T, k: nat, j: nat)
    requires ProperElements(all, default) && |all| >= 4 && e in all
    requires 2 <= k <= j + 2 && j < |Others(all, e)|
    ensures Candidate(all, default, e, k, j) != Base(all[1], default) + {all[2], all[3]}
  {
    var missed := Base(all[1], default) + {all[2], all[3]};
    var others := Others(all, e);
    DistinctAt(all, 0, 1);
    DistinctAt(all, 0, 2);
    DistinctAt(all, 0, 3);
    DistinctAt(all, 1, 2);
    DistinctAt(all, 1, 3);
    DistinctAt(all, 2, 3);
    assert all[0] !in missed;
    if k == 2 {
      assert Candidate(all, default, e, k, j) == Base(e, default) + {others[j]};
      assert all[1] in missed && all[2] in missed && all[3] in missed;
    } else if e == all[0] {
      assert e in Candidate(all, default, e, k, j);
    } else {
      OthersNext(all, e);
      assert others[0] in others[..k - 2] && all[0] in Candidate(all, default, e, k, j);
    }
  }

  lemma EnumeratedIsAround<T(!new)>(all: seq<T>, default: Option<T>)
    ensures Bounded(all, default, Enumeration(all, default))
  {
    RemainingIsBounded(all, default, [], 0, 1, 0);
  }

  lemma FourOrMoreMissSome<T(!new)>(all: seq<T>, default: Option<T>)
    requires ProperElements(all, default) && |all| >= 4
    ensures |Enumeration(all, default)| < Pow2(|all|) - 1
  {
    var family, missed := Enumeration(all, default), Base(all[1], default) + {all[2], all[3]};
    EnumeratedIsAround(all, default);
    EnumerationIsExact(all, default);
    MissedSubset(all, default);
    DistinctAppend(family, missed);
    assert IsAround(all, default, missed) by {
      assert all[1] in all && Base(all[1], default) <= missed;
    }
    BoundedIsSmall(all, default, family + [missed]);
  }

  lemma SubfamilyIsSmaller<T>(family: seq<set<T>>, larger: seq<set<T>>)
    requires Distinct(family) && forall conf :: conf in family ==> conf in larger
    ensures |family| <= |larger|
  {
    ElementsSize(family);
    ElementsAtMost(larger);
    SubsetCardinality(Elements(family), Elements(larger));
  }

  lemma {:induction false} SubsetCardinality<T>(a: set<T>, b: set<T>)
    requires a <= b
    ensures |a| <= |b|
  {
    if a != {} {
      var x :| x in a;
      SubsetCardinality(a - {x}, b - {x});
    }
  }

  lemma SingleIsFound<T(!new)>(all: seq<T>, default: Option<T>, e: T)
    requires ProperElements(all, default) && e in all
    ensures Base(e, default) in Enumeration(all, default)
  {
    EnumerationIsExact(all, default);
    assert IsEnumerated(all, default, Base(e, default));
  }

  lemma PairIsFound<T(!new)>(all: seq<T>, default: Option<T>, e: T, others: seq<T>, j: nat)
    requires ProperElements(all, default) && e in all && others == Others(all, e) && j < |others|
    ensures Base(e, default) + {others[j]} in Enumeration(all, default)
  {
    EnumerationIsExact(all, default);
    assert others[..0] == [] && Elements(others[..0]) == {};
    assert Candidate(all, default, e, 2, j) == Base(e, default) + {others[j]};
  }

  lemma TripleIsFound<T(!new)>(all: seq<T>, default: Option<T>, e: T, others: seq<T>, j: nat)
    requires ProperElements(all, default) && e in all && others == Others(all, e) && 1 <= j < |others|
    ensures Base(e, default) + {others[0]} + {others[j]} in Enumeration(all, default)
  {
    EnumerationIsExact(all, default);
    assert others[..1] == [others[0]] && Elements(others[..1]) == {others[0]};
    assert Candidate(all, default, e, 3, j) == Base(e, default) + {others[0]} + {others[j]};
  }

  /** Up to three elements, every non-empty subset is produced. */
  lemma ThreeOrFewerMissNone<T(!new)>(all: seq<T>, default: Option<T>)
    requires ProperElements(all, default) && |all| <= 3
    ensures |Enumeration(all, default)| >= Pow2(|all|) - 1
  {
    if |all| == 1 {
      SingleIsFound(all, default, all[0]);
    } else if |all| == 2 {
      TwoElements(all, default);
    } else if |all| == 3 {
      ThreeElements(all, default);
    }
  }

  lemma OthersOfTwo<T>(a: T, b: T)
    requires a != b
    ensures Others([a, b], a) == [b]
  {
    OthersNext([a, b], a);
    OthersNext([b], a);
    assert [a, b][1..] == [b] && [b][1..] == [];
  }

  lemma OthersOfFew<T>(a: T, b: T, c: T)
    requires a != b && a != c && b != c
    ensures Others([a, b, c], a) == [b, c] && Others([a, b, c], b) == [a, c]
  {
    assert [a, b, c][1..] == [b, c] && [b, c][1..] == [c] && [c][1..] == [];
    OthersNext([a, b, c], a);
    OthersNext([b, c], a);
    OthersNext([c], a);
    OthersNext([a, b, c], b);
    OthersNext([b, c], b);
    OthersNext([c], b);
  }

  lemma {:induction false} DistinctFromPairs<T>(list: seq<T>)
    requires forall i, j :: 0 <= i < j < |list| ==> list[i] != list[j]
    ensures Distinct(list)
  {
    if list != [] {
      DistinctFromPairs(list[1..]);
    }
  }

  lemma TwoElements<T(!new)>(all: seq<T>, default: Option<T>)
    requires ProperElements(all, default) && |all| == 2
    ensures |Enumeration(all, default)| >= 3
  {
    var a, b := all[0], all[1];
    DistinctAt(all, 0, 1);
    assert all == [a, b];
    OthersOfTwo(a, b);
    var list := [Base(a, default), Base(b, default), Base(a, default) + {b}];
    SingleIsFound(all, default, a);
    SingleIsFound(all, default, b);
    PairIsFound(all, default, a, [b], 0);
    assert a in list[0] && b !in list[0] && a !in list[1] && a in list[2] && b in list[2];
    DistinctFromPairs(list);
    SubfamilyIsSmaller(list, Enumeration(all, default));
  }

  lemma ThreeElements<T(!new)>(all: seq<T>, default: Option<T>)
    requires ProperElements(all, default) && |all| == 3
    ensures |Enumeration(all, default)| >= 7
  {
    var a, b, c := all[0], all[1], all[2];
    DistinctAt(all, 0, 1);
    DistinctAt(all, 0, 2);
    DistinctAt(all, 1, 2);
    assert all == [a, b, c];
    assert a in all && b in all && c in all;
    SevenDiffer(a, b, c, default);
    SevenAreFound(a, b, c, default);
    SubfamilyIsSmaller(Seven(a, b, c, default), Enumeration(all, default));
  }

  function Seven<T>(a: T, b: T, c: T, default: Option<T>): seq<set<T>> {
    var x, y, z := Base(a, default), Base(b, default), Base(c, default);
    [x, y, z, x + {b}, x + {c}, y + {c}, x + {b} + {c}]
  }

  lemma SevenAreFound<T(!new)>(a: T, b: T, c: T, default: Option<T>)
    requires ProperElements([a, b, c], default)
    requires a != b && a != c && b != c
    ensures forall conf :: conf in Seven(a, b, c, default) ==> conf in Enumeration([a, b, c], default)
  {
    var all := [a, b, c];
    OthersOfFew(a, b, c);
    SingleIsFound(all, default, a);
    SingleIsFound(all, default, b);
    SingleIsFound(all, default, c);
    PairIsFound(all, default, a, [b, c], 0);
    PairIsFound(all, default, a, [b, c], 1);
    PairIsFound(all, default, b, [a, c], 1);
    TripleIsFound(all, default, a, [b, c], 1);
  }

  lemma SevenDiffer<T>(a: T, b: T, c: T, default: Option<T>)
    requires a != b && a != c && b != c && default != Some(a) && default != Some(b) && default != Some(c)
    ensures Distinct(Seven(a, b, c, default))
  {
    var list := Seven(a, b, c, default);
    assert a in list[0] && b !in list[0] && c !in list[0];
    assert a !in list[1] && b in list[1] && c !in list[1];
    assert a !in list[2] && b !in list[2] && c in list[2];
    assert a in list[3] && b in list[3] && c !in list[3];
    assert a in list[4] && b !in list[4] && c in list[4];
    assert a !in list[5] && b in list[5] && c in list[5];
    assert a in list[6] && b in list[6] && c in list[6];
    DistinctFromPairs(list);
  }

  /** The enumeration is complete exactly for up to three elements. */
  lemma CompleteUpToThree<T(!new)>(all: seq<T>, default: Option<T>)
    requires ProperElements(all, default)
    ensures |Enumeration(all, default)| == Pow2(|all|) - 1 <==> |all| <= 3
  {
    EnumerationIsSmall(all, default);
    if |all| <= 3 {
      ThreeOrFewerMissNone(all, default);
    } else {
      FourOrMoreMissSome(all, default);
    }
  }
}
