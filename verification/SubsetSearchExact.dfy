/** Exactly which subsets the greedy enumeration produces, for pairwise distinct elements. */
module SubsetSearchExact {
  import opened Options
  import opened SubsetSearch

  function Others<T(==)>(all: seq<T>, e: T): seq<T> {
    if all == [] then [] else (if all[0] == e then [] else [all[0]]) + Others(all[1..], e)
  }

  /** What a configuration of size k around e has before its last element: e, the default element if any,
      and the first k - 2 other elements. */
  function Core<T(==)>(all: seq<T>, default: Option<T>, e: T, k: nat): set<T>
    requires 2 <= k <= |Others(all, e)| + 2
  {
    Base(e, default) + Elements(Others(all, e)[..k - 2])
  }

  /** The configuration of size k around e that ends with other element number j. */
  function Candidate<T(==)>(all: seq<T>, default: Option<T>, e: T, k: nat, j: nat): set<T>
    requires 2 <= k <= j + 2 && j < |Others(all, e)|
  {
    Core(all, default, e, k) + {Others(all, e)[j]}
  }

  ghost predicate IsEnumerated<T(!new)>(all: seq<T>, default: Option<T>, conf: set<T>) {
    exists e :: e in all && (conf == Base(e, default)
      || exists k, j :: 2 <= k <= j + 2 && j < |Others(all, e)| && conf == Candidate(all, default, e, k, j))
  }

  /** Elements given once each, none of them being the default element. */
  predicate ProperElements<T(==)>(all: seq<T>, default: Option<T>) {
    Distinct(all) && (default.Some? ==> default.value !in all)
  }

  lemma OthersNext<T>(all: seq<T>, e: T)
    requires all != []
    ensures all[0] == e ==> Others(all, e) == Others(all[1..], e)
    ensures all[0] != e ==> Others(all, e) != [] && Others(all, e)[0] == all[0] && Others(all, e)[1..] == Others(all[1..], e)
  {
  }

  lemma {:induction false} OthersMembers<T>(all: seq<T>, e: T)
    ensures forall x :: x in Others(all, e) <==> x in all && x != e
  {
    if all != [] {
      OthersMembers(all[1..], e);
      OthersNext(all, e);
      assert all == [all[0]] + all[1..];
      assert all[0] != e ==> Others(all, e) == [all[0]] + Others(all[1..], e);
    }
  }

  lemma {:induction false} OthersShape<T>(all: seq<T>, e: T)
    requires Distinct(all)
    ensures Distinct(Others(all, e))
    ensures |Others(all, e)| == if e in all then |all| - 1 else |all|
  {
    if all != [] {
      OthersShape(all[1..], e);
      OthersNext(all, e);
      OthersMembers(all[1..], e);
    }
  }

  lemma {:induction false} GrowSkips<T>(all: seq<T>, e: T, conf: set<T>, target: nat, history: seq<set<T>>)
    requires e in conf
    ensures Grow(all, conf, target, history) == Grow(Others(all, e), conf, target, history)
    decreases |all|
  {
    if all != [] {
      OthersNext(all, e);
      GrowSkips(all[1..], e, conf, target, history);
      GrowSkips(all[1..], e, conf + {all[0]}, target, history);
    }
  }

  lemma GrowOne<T>(list: seq<T>, conf: set<T>, target: nat, history: seq<set<T>>)
    requires list != [] && list[0] !in conf && |conf| + 1 < target
    ensures Grow(list, conf, target, history) == Grow(list[1..], conf + {list[0]}, target, history)
  {
  }

  lemma ElementsOfPrefix<T>(list: seq<T>, conf: set<T>, r: nat)
    requires 0 < r <= |list|
    ensures conf + {list[0]} + Elements(list[1..][..r - 1]) == conf + Elements(list[..r])
  {
    assert list[..r] == [list[0]] + list[1..][..r - 1];
  }

  lemma ElementsApart<T>(list: seq<T>, conf: set<T>)
    requires list != [] && Distinct(list) && Elements(list) !! conf
    ensures list[0] !in conf && Distinct(list[1..]) && Elements(list[1..]) !! conf + {list[0]}
  {
    assert list[0] in Elements(list);
    assert list == [list[0]] + list[1..];
    assert Elements(list[1..]) <= Elements(list);
  }

  lemma {:induction false} GrowPrefix<T>(list: seq<T>, conf: set<T>, target: nat, history: seq<set<T>>, r: nat)
    requires Distinct(list) && Elements(list) !! conf
    requires r <= |list| && |conf| + r + 1 == target
    ensures Grow(list, conf, target, history) == Grow(list[r..], conf + Elements(list[..r]), target, history)
    decreases r
  {
    if r == 0 {
      assert conf + Elements(list[..0]) == conf;
    } else {
      ElementsApart(list, conf);
      GrowOne(list, conf, target, history);
      GrowPrefix(list[1..], conf + {list[0]}, target, history, r - 1);
      assert list[1..][r - 1..] == list[r..];
      ElementsOfPrefix(list, conf, r);
    }
  }

  /** The first element that completes a configuration not in the history, or the length if there is none. */
  function FirstNew<T>(list: seq<T>, conf: set<T>, history: seq<set<T>>): (i: nat)
    ensures i <= |list|
    ensures i < |list| ==> conf + {list[i]} !in history
    ensures forall j :: 0 <= j < i ==> conf + {list[j]} in history
  {
    if list == [] || conf + {list[0]} !in history then 0
    else
      var i := FirstNew(list[1..], conf, history);
      assert forall j :: 1 <= j < i + 1 ==> list[j] == list[1..][j - 1];
      i + 1
  }

  lemma {:induction false} GrowLast<T>(list: seq<T>, conf: set<T>, target: nat, history: seq<set<T>>)
    requires Elements(list) !! conf && |conf| + 1 == target
    ensures var i := FirstNew(list, conf, history);
      Grow(list, conf, target, history) == if i < |list| then conf + {list[i]} else conf
    decreases |list|
  {
    if list != [] {
      var x := list[0];
      assert x in Elements(list);
      assert list == [x] + list[1..];
      if conf + {x} in history {
        GrowLast(list[1..], conf, target, history);
      }
    }
  }

  lemma BaseSize<T>(e: T, default: Option<T>, all: seq<T>)
    requires ProperElements(all, default) && e in all
    ensures |Base(e, default)| == Target(1, default)
    ensures Elements(Others(all, e)) !! Base(e, default)
  {
    OthersMembers(all, e);
  }

  lemma {:induction false} ElementsSize<T>(list: seq<T>)
    requires Distinct(list)
    ensures |Elements(list)| == |list|
  {
    if list == [] {
      assert Elements(list) == {};
    } else {
      ElementsSize(list[1..]);
      assert list == [list[0]] + list[1..];
      assert Elements(list) == {list[0]} + Elements(list[1..]);
    }
  }

  lemma {:induction false} DistinctSplit<T>(list: seq<T>, r: nat)
    requires Distinct(list) && r <= |list|
    ensures Distinct(list[..r]) && Elements(list[..r]) !! Elements(list[r..])
    ensures Elements(list[..r]) <= Elements(list) && Elements(list[r..]) <= Elements(list)
  {
    if r > 0 {
      DistinctSplit(list[1..], r - 1);
      assert list[..r][1..] == list[1..][..r - 1];
      assert list[r..] == list[1..][r - 1..];
      assert forall x :: x in list[..r] <==> x == list[0] || x in list[1..][..r - 1];
      assert forall x :: x in list[r..] ==> x in Elements(list[1..]);
    }
  }

  lemma CoreShape<T>(all: seq<T>, default: Option<T>, e: T, k: nat)
    requires ProperElements(all, default) && e in all && 2 <= k <= |all|
    ensures k - 2 <= |Others(all, e)|
    ensures |Core(all, default, e, k)| + 1 == Target(k, default)
    ensures Elements(Others(all, e)[k - 2..]) !! Core(all, default, e, k)
  {
    var others := Others(all, e);
    OthersShape(all, e);
    BaseSize(e, default, all);
    DistinctSplit(others, k - 2);
    ElementsSize(others[..k - 2]);
  }

  /** The scan of a call of size k >= 2 ends with the first candidate the history lacks, if any. */
  lemma GrowFindsFirst<T>(all: seq<T>, default: Option<T>, e: T, k: nat, history: seq<set<T>>)
    requires ProperElements(all, default) && e in all && 2 <= k <= |all|
    requires k - 2 <= |Others(all, e)|
    ensures var tail, core := Others(all, e)[k - 2..], Core(all, default, e, k);
      var i := FirstNew(tail, core, history);
      Grow(all, Base(e, default), Target(k, default), history) == if i < |tail| then core + {tail[i]} else core
  {
    var others, base, target := Others(all, e), Base(e, default), Target(k, default);
    var core := Core(all, default, e, k);
    OthersShape(all, e);
    BaseSize(e, default, all);
    CoreShape(all, default, e, k);
    GrowSkips(all, e, base, target, history);
    GrowPrefix(others, base, target, history, k - 2);
    GrowLast(others[k - 2..], core, target, history);
  }

  lemma CoreLacksOne<T>(all: seq<T>, default: Option<T>, e: T, k: nat)
    requires ProperElements(all, default) && e in all && 2 <= k <= |all|
    requires k - 2 <= |Others(all, e)|
    ensures var tail, core := Others(all, e)[k - 2..], Core(all, default, e, k);
      |core| + 1 == Target(k, default) && forall i :: 0 <= i < |tail| ==> |core + {tail[i]}| == Target(k, default)
  {
    var tail, core := Others(all, e)[k - 2..], Core(all, default, e, k);
    OthersShape(all, e);
    BaseSize(e, default, all);
    CoreShape(all, default, e, k);
    forall i | 0 <= i < |tail|
      ensures |core + {tail[i]}| == Target(k, default)
    {
      assert tail[i] in Elements(tail);
    }
  }

  /** One call of size k >= 2 adds the first candidate the history lacks, if any. */
  lemma AttemptAddsFirst<T>(all: seq<T>, default: Option<T>, e: T, k: nat, history: seq<set<T>>)
    requires ProperElements(all, default) && e in all && 2 <= k <= |all|
    requires k - 2 <= |Others(all, e)|
    ensures var tail, core := Others(all, e)[k - 2..], Core(all, default, e, k);
      var i := FirstNew(tail, core, history);
      Attempt(all, e, k, history, default) == if i < |tail| then history + [core + {tail[i]}] else history
  {
    GrowFindsFirst(all, default, e, k, history);
    CoreLacksOne(all, default, e, k);
  }

  // ---------- the three loops ----------

  /** The first `count` candidates of size k around e are in the history. */
  ghost predicate Tried<T(!new)>(all: seq<T>, default: Option<T>, history: seq<set<T>>, e: T, k: nat, count: nat) {
    if k < 2 then count > 0 ==> Base(e, default) in history
    else forall j :: k <= j + 2 < k + count && j < |Others(all, e)| ==> Candidate(all, default, e, k, j) in history
  }

  ghost predicate Explored<T(!new)>(all: seq<T>, default: Option<T>, history: seq<set<T>>, f: nat, k: nat, m: nat) {
    && Distinct(history)
    && (forall conf :: conf in history ==> IsEnumerated(all, default, conf))
    && (forall f', k' :: 0 <= f' < |all| && 1 <= k' <= |all| && (f' < f || (f' == f && k' < k)) ==>
          Tried(all, default, history, all[f'], k', |all|))
    && (f < |all| && k <= |all| ==> Tried(all, default, history, all[f], k, m))
  }

  lemma TriedStays<T(!new)>(all: seq<T>, default: Option<T>, history: seq<set<T>>, longer: seq<set<T>>, e: T, k: nat, count: nat)
    requires Tried(all, default, history, e, k, count) && history <= longer
    ensures Tried(all, default, longer, e, k, count)
  {
    forall conf | conf in history ensures conf in longer {
      var i :| 0 <= i < |history| && history[i] == conf;
      assert longer[i] == conf;
    }
  }

  /** A call adds only an enumerated configuration, a new one, and advances the candidates tried. */
  lemma AttemptAdvances<T(!new)>(all: seq<T>, default: Option<T>, history: seq<set<T>>, e: T, k: nat, m: nat)
    requires ProperElements(all, default) && e in all && 1 <= k <= |all|
    requires Tried(all, default, history, e, k, m)
    ensures var next := Attempt(all, e, k, history, default);
      && history <= next
      && (next == history || (next == history + [next[|history|]] && next[|history|] !in history
           && IsEnumerated(all, default, next[|history|])))
      && Tried(all, default, next, e, k, m + 1)
  {
    var next := Attempt(all, e, k, history, default);
    if k == 1 {
      BaseSize(e, default, all);
    } else {
      CoreShape(all, default, e, k);
      AttemptAddsFirst(all, default, e, k, history);
      CandidatesTried(all, default, history, e, k, m);
    }
  }

  lemma CandidateAt<T>(all: seq<T>, default: Option<T>, e: T, k: nat, i: nat)
    requires 2 <= k <= |Others(all, e)| + 2 && i + k - 2 < |Others(all, e)|
    ensures Candidate(all, default, e, k, i + k - 2) == Core(all, default, e, k) + {Others(all, e)[k - 2..][i]}
  {
  }

  lemma CandidatesTried<T(!new)>(all: seq<T>, default: Option<T>, history: seq<set<T>>, e: T, k: nat, m: nat)
    requires 2 <= k <= |Others(all, e)| + 2 && e in all
    requires Tried(all, default, history, e, k, m)
    ensures var tail, core := Others(all, e)[k - 2..], Core(all, default, e, k);
      var i := FirstNew(tail, core, history);
      && (i < |tail| ==> IsEnumerated(all, default, core + {tail[i]}))
      && Tried(all, default, if i < |tail| then history + [core + {tail[i]}] else history, e, k, m + 1)
  {
    var tail, core := Others(all, e)[k - 2..], Core(all, default, e, k);
    var i := FirstNew(tail, core, history);
    if i < |tail| {
      CandidateAt(all, default, e, k, i);
    }
    forall j | k <= j + 2 < k + m + 1 && j < |Others(all, e)|
      ensures Candidate(all, default, e, k, j) in if i < |tail| then history + [core + {tail[i]}] else history
    {
      CandidateHeld(all, default, history, e, k, m, j);
    }
  }

  lemma TriedInTail<T(!new)>(all: seq<T>, default: Option<T>, history: seq<set<T>>, e: T, k: nat, m: nat, t: nat)
    requires 2 <= k <= |Others(all, e)| + 2 && e in all
    requires Tried(all, default, history, e, k, m)
    requires t < m && t + k - 2 < |Others(all, e)|
    ensures Core(all, default, e, k) + {Others(all, e)[k - 2..][t]} in history
  {
    CandidateAt(all, default, e, k, t);
    assert Candidate(all, default, e, k, t + k - 2) in history;
  }

  lemma FirstNewAt<T>(list: seq<T>, conf: set<T>, history: seq<set<T>>, t: nat)
    requires t < |list|
    requires forall s :: 0 <= s < t ==> conf + {list[s]} in history
    ensures var i := FirstNew(list, conf, history);
      conf + {list[t]} in if i < |list| then history + [conf + {list[i]}] else history
  {
  }

  lemma CandidateHeld<T(!new)>(all: seq<T>, default: Option<T>, history: seq<set<T>>, e: T, k: nat, m: nat, j: nat)
    requires 2 <= k <= |Others(all, e)| + 2 && e in all
    requires Tried(all, default, history, e, k, m)
    requires k <= j + 2 < k + m + 1 && j < |Others(all, e)|
    ensures var tail, core := Others(all, e)[k - 2..], Core(all, default, e, k);
      var i := FirstNew(tail, core, history);
      Candidate(all, default, e, k, j) in if i < |tail| then history + [core + {tail[i]}] else history
  {
    var tail, core, t := Others(all, e)[k - 2..], Core(all, default, e, k), j + 2 - k;
    forall s | 0 <= s < t ensures core + {tail[s]} in history {
      TriedInTail(all, default, history, e, k, m, s);
    }
    FirstNewAt(tail, core, history, t);
    CandidateAt(all, default, e, k, t);
  }

  /** What is explored before one position of the loops is explored before the next. */
  lemma ExploredOn<T(!new)>(all: seq<T>, default: Option<T>, history: seq<set<T>>, f: nat, k: nat, m: nat, f2: nat, k2: nat)
    requires Explored(all, default, history, f, k, m)
    requires (f >= |all| && f2 == |all| && k2 == 1) || (f < |all| && k > |all| && f2 == f + 1 && k2 == 1) ||
      (f < |all| && 1 <= k <= |all| && m >= |all| && f2 == f && k2 == k + 1)
    ensures Explored(all, default, history, f2, k2, 0)
  {
    forall f', k' | 0 <= f' < |all| && 1 <= k' <= |all| && (f' < f2 || (f' == f2 && k' < k2))
      ensures Tried(all, default, history, all[f'], k', |all|)
    {
      if f' == f && k' == k && m > |all| {
        TriedFewer(all, default, history, all[f'], k', m, |all|);
      }
    }
  }

  lemma TriedFewer<T(!new)>(all: seq<T>, default: Option<T>, history: seq<set<T>>, e: T, k: nat, count: nat, fewer: nat)
    requires Tried(all, default, history, e, k, count) && fewer <= count
    ensures Tried(all, default, history, e, k, fewer)
  {
  }

  lemma {:induction false} RemainingExplores<T(!new)>(all: seq<T>, default: Option<T>, history: seq<set<T>>, f: nat, k: nat, m: nat)
    requires ProperElements(all, default) && 1 <= k <= |all| + 1
    requires Explored(all, default, history, f, k, m)
    ensures Explored(all, default, Remaining(all, default, history, f, k, m), |all|, 1, 0)
    decreases |all| - f, |all| + 1 - k, |all| - m
  {
    var n := |all|;
    if f >= n {
      ExploredOn(all, default, history, f, k, m, n, 1);
    } else if k > n {
      ExploredOn(all, default, history, f, k, m, f + 1, 1);
      RemainingExplores(all, default, history, f + 1, 1, 0);
    } else if m >= n {
      ExploredOn(all, default, history, f, k, m, f, k + 1);
      RemainingExplores(all, default, history, f, k + 1, 0);
    } else {
      AttemptExplores(all, default, history, f, k, m);
      RemainingExplores(all, default, Attempt(all, all[f], k, history, default), f, k, m + 1);
    }
  }

  lemma AttemptExplores<T(!new)>(all: seq<T>, default: Option<T>, history: seq<set<T>>, f: nat, k: nat, m: nat)
    requires ProperElements(all, default) && 1 <= k <= |all| && f < |all|
    requires Explored(all, default, history, f, k, m)
    ensures Explored(all, default, Attempt(all, all[f], k, history, default), f, k, m + 1)
  {
    var next := Attempt(all, all[f], k, history, default);
    AttemptAdvances(all, default, history, all[f], k, m);
    if next != history {
      DistinctAppend(history, next[|history|]);
    }
    forall f', k' | 0 <= f' < |all| && 1 <= k' <= |all| && (f' < f || (f' == f && k' < k))
      ensures Tried(all, default, next, all[f'], k', |all|)
    {
      TriedStays(all, default, history, next, all[f'], k', |all|);
    }
  }

  /** For pairwise distinct elements the enumeration ends with exactly all singletons and all sets made of
      an element, the first k - 2 other ones and one more other element, each of them once. */
  lemma EnumerationIsExact<T(!new)>(all: seq<T>, default: Option<T>)
    requires ProperElements(all, default)
    ensures Distinct(Enumeration(all, default))
    ensures forall conf :: conf in Enumeration(all, default) <==> IsEnumerated(all, default, conf)
  {
    var result := Enumeration(all, default);
    RemainingExplores(all, default, [], 0, 1, 0);
    forall conf | IsEnumerated(all, default, conf) ensures conf in result {
      var e :| e in all && (conf == Base(e, default)
        || exists k, j :: 2 <= k <= j + 2 && j < |Others(all, e)| && conf == Candidate(all, default, e, k, j));
      var f :| 0 <= f < |all| && all[f] == e;
      if conf == Base(e, default) {
        assert Tried(all, default, result, all[f], 1, |all|);
      } else {
        var k, j :| 2 <= k <= j + 2 && j < |Others(all, e)| && conf == Candidate(all, default, e, k, j);
        OthersShape(all, e);
        assert Tried(all, default, result, all[f], k, |all|);
      }
    }
  }
}
