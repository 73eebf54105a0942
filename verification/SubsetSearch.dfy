/** The greedy enumeration of element subsets that the strategy optimizer tries: one call looks for a
    configuration of a given size around a forced element that its history does not hold yet. */
module SubsetSearch {
  import opened Options

  // ---------- one call ----------

  function Base<T>(forced: T, default: Option<T>): set<T> {
    if default.Some? then {forced, default.value} else {forced}
  }

  function Target<T>(nb: nat, default: Option<T>): nat {
    if default.Some? then nb + 1 else nb
  }

  /** The scan over the elements: each one is added unless it completes a configuration already tried. */
  function Grow<T>(elements: seq<T>, conf: set<T>, target: nat, history: seq<set<T>>): set<T> {
    if elements == [] || |conf| >= target then conf
    else
      var x := elements[0];
      if x in conf || (|conf + {x}| == target && conf + {x} in history) then Grow(elements[1..], conf, target, history)
      else Grow(elements[1..], conf + {x}, target, history)
  }

  /** The history after one call. */
  function Attempt<T>(all: seq<T>, forced: T, nb: nat, history: seq<set<T>>, default: Option<T>): seq<set<T>> {
    var base, target := Base(forced, default), Target(nb, default);
    var conf := if nb > 1 then Grow(all, base, target, history) else base;
    if |conf| == target && conf !in history then history + [conf] else history
  }

  /** A call of size one only ever tries the forced element with the default one, whatever the others. */
  lemma AttemptOfOne<T>(all: seq<T>, forced: T, history: seq<set<T>>, default: Option<T>)
    ensures var alone := {forced} + if default.Some? then {default.value} else {};
      Attempt(all, forced, 1, history, default) ==
        if default == Some(forced) || alone in history then history else history + [alone]
  {
    var alone := {forced} + if default.Some? then {default.value} else {};
    assert Base(forced, default) == alone;
    if default.Some? && default.value != forced {
      assert |{forced, default.value}| == 2;
    }
  }

  class ConfHistory<T(==)> {
    var confs: seq<set<T>>

    constructor ()
      ensures confs == []
    {
      confs := [];
    }

    /** `_get_activated_element`: the new configuration, also appended to the history, or None. */
    method GetActivatedElement(all: seq<T>, forced: T, nb: nat, default: Option<T>) returns (found: Option<set<T>>)
      modifies this
      ensures confs == Attempt(all, forced, nb, old(confs), default)
      ensures found == if confs == old(confs) then None else Some(confs[|confs| - 1])
      ensures found.Some? ==> confs == old(confs) + [found.value] && found.value !in old(confs)
    {
      var conf := Base(forced, default);
      var target := Target(nb, default);
      if nb > 1 {
        var i := 0;
        while i < |all| && |conf| < target
          invariant i <= |all|
          invariant Grow(all[i..], conf, target, confs) == Grow(all, Base(forced, default), target, confs)
          invariant confs == old(confs)
        {
          var x := all[i];
          if x !in conf {
            conf := conf + {x};
            if |conf| == target && conf in confs {
              conf := conf - {x};
            }
          }
          i := i + 1;
        }
      }
      if |conf| == target && conf !in confs {
        confs := confs + [conf];
        return Some(conf);
      }
      return None;
    }
  }

  // ---------- all calls ----------

  /** What the three nested loops still make of a history, from forced element f, size k and attempt m on. */
  function Remaining<T>(all: seq<T>, default: Option<T>, history: seq<set<T>>, f: nat, k: nat, m: nat): seq<set<T>>
    decreases |all| - f, |all| + 1 - k, |all| - m
  {
    var n := |all|;
    if f >= n then history
    else if k > n then Remaining(all, default, history, f + 1, 1, 0)
    else if m >= n then Remaining(all, default, history, f, k + 1, 0)
    else Remaining(all, default, Attempt(all, all[f], k, history, default), f, k, m + 1)
  }

  function Enumeration<T>(all: seq<T>, default: Option<T>): seq<set<T>> {
    Remaining(all, default, [], 0, 1, 0)
  }

  lemma {:induction false} RemainingExtends<T>(all: seq<T>, default: Option<T>, history: seq<set<T>>, f: nat, k: nat, m: nat)
    ensures history <= Remaining(all, default, history, f, k, m)
    decreases |all| - f, |all| + 1 - k, |all| - m
  {
    var n := |all|;
    if f >= n {
    } else if k > n {
      RemainingExtends(all, default, history, f + 1, 1, 0);
    } else if m >= n {
      RemainingExtends(all, default, history, f, k + 1, 0);
    } else {
      RemainingExtends(all, default, Attempt(all, all[f], k, history, default), f, k, m + 1);
    }
  }

  predicate Distinct<T(==)>(list: seq<T>) {
    list == [] || (list[0] !in list[1..] && Distinct(list[1..]))
  }

  function Elements<T>(list: seq<T>): set<T> {
    set x | x in list
  }

  lemma {:induction false} DistinctAppend<T>(list: seq<T>, x: T)
    requires Distinct(list) && x !in list
    ensures Distinct(list + [x])
  {
    if list != [] {
      DistinctAppend(list[1..], x);
      assert (list + [x])[1..] == list[1..] + [x];
    }
  }

  lemma {:induction false} DistinctAt<T>(list: seq<T>, i: nat, j: nat)
    requires Distinct(list) && i < j < |list|
    ensures list[i] != list[j]
  {
    if i == 0 {
      assert list[j] == list[1..][j - 1];
    } else {
      DistinctAt(list[1..], i - 1, j - 1);
    }
  }

  // ---------- how many configurations there can be ----------

  function Pow2(n: nat): nat {
    if n == 0 then 1 else 2 * Pow2(n - 1)
  }

  /** The sets holding x, or those not holding it, each without x. */
  function Part<T>(family: seq<set<T>>, x: T, holding: bool): seq<set<T>> {
    if family == [] then []
    else (if (x in family[0]) == holding then [family[0] - {x}] else []) + Part(family[1..], x, holding)
  }

  function Restored<T>(s: set<T>, x: T, holding: bool): set<T> {
    if holding then s + {x} else s
  }

  lemma {:induction false} PartMembers<T>(family: seq<set<T>>, x: T, holding: bool)
    ensures forall s :: s in Part(family, x, holding) <==> x !in s && Restored(s, x, holding) in family
  {
    if family != [] {
      PartMembers(family[1..], x, holding);
      var head := family[0];
      assert family == [head] + family[1..];
      assert x in head ==> head - {x} + {x} == head;
      assert x !in head ==> head - {x} == head;
      forall s ensures s in Part(family, x, holding) <==> x !in s && Restored(s, x, holding) in family {
        assert x !in s ==> s + {x} - {x} == s;
      }
    }
  }

  lemma {:induction false} PartIsDistinct<T>(family: seq<set<T>>, x: T, holding: bool)
    requires Distinct(family)
    ensures Distinct(Part(family, x, holding))
  {
    if family != [] {
      PartIsDistinct(family[1..], x, holding);
      PartMembers(family[1..], x, holding);
      var head, rest := family[0], Part(family[1..], x, holding);
      assert x in head ==> head - {x} + {x} == head;
      assert x !in head ==> head - {x} == head;
      assert ([head - {x}] + rest)[1..] == rest && [] + rest == rest;
    }
  }

  lemma {:induction false} PartsCount<T>(family: seq<set<T>>, x: T)
    ensures |family| == |Part(family, x, true)| + |Part(family, x, false)|
  {
    if family != [] {
      PartsCount(family[1..], x);
    }
  }

  predicate AllWithin<T>(family: seq<set<T>>, universe: set<T>) {
    forall s :: s in family ==> s <= universe
  }

  lemma PartWithin<T>(family: seq<set<T>>, x: T, holding: bool, universe: set<T>)
    requires AllWithin(family, universe)
    ensures AllWithin(Part(family, x, holding), universe - {x})
  {
    PartMembers(family, x, holding);
    forall s | s in Part(family, x, holding) ensures s <= universe - {x} {
      assert Restored(s, x, holding) in family;
    }
  }

  lemma OnlyEmptySet<T>(family: seq<set<T>>)
    requires Distinct(family) && AllWithin(family, {})
    ensures |family| <= 1
  {
    forall i | 0 <= i < |family| ensures family[i] == {} {
      assert family[i] in family;
    }
    if |family| > 1 {
      DistinctAt(family, 0, 1);
    }
  }

  /** A set of n elements has at most 2^n subsets. */
  lemma {:induction false} SubsetsBound<T>(family: seq<set<T>>, universe: set<T>)
    requires Distinct(family) && AllWithin(family, universe)
    ensures |family| <= Pow2(|universe|)
    decreases |universe|
  {
    if universe == {} {
      OnlyEmptySet(family);
    } else {
      var x :| x in universe;
      var rest := universe - {x};
      PartsCount(family, x);
      PartWithin(family, x, true, universe);
      PartWithin(family, x, false, universe);
      PartIsDistinct(family, x, true);
      PartIsDistinct(family, x, false);
      SubsetsBound(Part(family, x, true), rest);
      SubsetsBound(Part(family, x, false), rest);
    }
  }

  lemma NonEmptySubsetsBound<T>(family: seq<set<T>>, universe: set<T>)
    requires Distinct(family) && AllWithin(family, universe) && {} !in family
    ensures |family| <= Pow2(|universe|) - 1
  {
    DistinctAppend(family, {});
    SubsetsBound(family + [{}], universe);
  }
}
