/** The bounded cache of processed message ids that turns at-least-once delivery into at-most-once within
    a window, against the unbounded history of accepted ids it stands for. */
module MessageCache {
  const MAX_MESSAGE_ID_CACHE_SIZE := 100

  /** The cache after an id is recorded: past the maximum only its second half is kept. */
  function Recorded<T>(cache: seq<T>, id: T): seq<T> {
    var grown := cache + [id];
    if |grown| > MAX_MESSAGE_ID_CACHE_SIZE then grown[MAX_MESSAGE_ID_CACHE_SIZE / 2..] else grown
  }

  /** How many of n accepted ids are remembered. */
  function Remembered(n: nat): (m: nat)
    ensures m <= n && m <= MAX_MESSAGE_ID_CACHE_SIZE
    ensures m >= 51 || m == n
  {
    if n <= 100 then n else 51 + (n - 101) % 50
  }

  /** The window of the history that the cache holds. */
  function Window<T>(accepted: seq<T>): seq<T> {
    accepted[|accepted| - Remembered(|accepted|)..]
  }

  /** The history after a message is received. */
  function Accepted<T(==)>(accepted: seq<T>, id: T): seq<T> {
    if id in Window(accepted) then accepted else accepted + [id]
  }

  function AcceptedAll<T(==)>(ids: seq<T>): seq<T> {
    if ids == [] then [] else Accepted(AcceptedAll(ids[..|ids| - 1]), ids[|ids| - 1])
  }

  /** Recording an id keeps the cache equal to the window of the history. */
  lemma RecordedIsWindow<T>(accepted: seq<T>, id: T)
    ensures Recorded(Window(accepted), id) == Window(accepted + [id])
  {
    var n := |accepted|;
    var all := accepted + [id];
    if n >= 100 {
      if Remembered(n) == 100 {
        assert Remembered(n + 1) == 51;
      } else {
        assert Remembered(n + 1) == Remembered(n) + 1;
      }
    }
    assert Window(accepted) + [id] == all[n - Remembered(n)..];
  }

  /** Where the window starts within a history of n ids. */
  function WindowStart(n: nat): nat {
    n - Remembered(n)
  }

  lemma {:induction false} WindowStartMoves(m: nat, n: nat)
    requires m <= n
    ensures WindowStart(m) <= WindowStart(n)
    decreases n - m
  {
    if m < n {
      WindowStartMoves(m, n - 1);
      if n > 101 {
        assert Remembered(n) == Remembered(n - 1) + 1 || (Remembered(n) == 51 && Remembered(n - 1) == 100);
      }
    }
  }

  /** Each id was outside the window when it was accepted. */
  predicate AcceptedOutsideWindow<T(==)>(accepted: seq<T>) {
    forall i, j :: 0 <= i < j < |accepted| && accepted[i] == accepted[j] ==> i < WindowStart(j)
  }

  lemma OutsideWindow<T>(accepted: seq<T>, i: nat)
    requires i < |accepted| && accepted[i] !in Window(accepted)
    ensures i < WindowStart(|accepted|)
  {
    var start := WindowStart(|accepted|);
    assert forall k :: start <= k < |accepted| ==> accepted[k] == Window(accepted)[k - start];
  }

  lemma OneMoreOutsideWindow<T>(accepted: seq<T>, id: T)
    requires AcceptedOutsideWindow(accepted) && id !in Window(accepted)
    ensures AcceptedOutsideWindow(accepted + [id])
  {
    forall i | 0 <= i < |accepted| && accepted[i] == id ensures i < WindowStart(|accepted|) {
      OutsideWindow(accepted, i);
    }
  }

  lemma {:induction false} AlwaysAcceptedOutsideWindow<T>(ids: seq<T>)
    ensures AcceptedOutsideWindow(AcceptedAll(ids))
  {
    if ids != [] {
      var before, id := AcceptedAll(ids[..|ids| - 1]), ids[|ids| - 1];
      AlwaysAcceptedOutsideWindow(ids[..|ids| - 1]);
      if id !in Window(before) {
        OneMoreOutsideWindow(before, id);
      }
    }
  }

  /** Whatever messages are received, two acceptances of the same id have at least 51 others between them. */
  lemma {:induction false} SameIdIsFarApart<T>(ids: seq<T>, i: nat, j: nat)
    requires i < j < |AcceptedAll(ids)| && AcceptedAll(ids)[i] == AcceptedAll(ids)[j]
    ensures j - i >= 52
  {
    AlwaysAcceptedOutsideWindow(ids);
    assert Remembered(j) >= 51;
  }

  lemma OutsideMeansDistinct<T>(accepted: seq<T>, i: nat, j: nat)
    requires AcceptedOutsideWindow(accepted) && WindowStart(|accepted|) <= i < j < |accepted|
    ensures accepted[i] != accepted[j]
  {
    WindowStartMoves(j, |accepted|);
  }

  /** The window, hence the cache, never holds an id twice. */
  lemma {:induction false} WindowHasNoDuplicate<T>(ids: seq<T>, i: nat, j: nat)
    requires i < j < |Window(AcceptedAll(ids))|
    ensures Window(AcceptedAll(ids))[i] != Window(AcceptedAll(ids))[j]
  {
    var accepted := AcceptedAll(ids);
    AlwaysAcceptedOutsideWindow(ids);
    OutsideMeansDistinct(accepted, WindowStart(|accepted|) + i, WindowStart(|accepted|) + j);
  }

  function Numbers(n: nat): (r: seq<int>)
    ensures |r| == n && forall i | 0 <= i < n :: r[i] == i
  {
    if n == 0 then [] else Numbers(n - 1) + [n - 1]
  }

  lemma NewNumber(n: nat)
    ensures n !in Window(Numbers(n))
  {
  }

  lemma {:induction false} AcceptedInOrder(n: nat)
    ensures AcceptedAll(Numbers(n)) == Numbers(n)
  {
    if n > 0 {
      AcceptedInOrder(n - 1);
      assert Numbers(n)[..n - 1] == Numbers(n - 1);
      NewNumber(n - 1);
    }
  }

  /** The distance is exact: after 101 messages the id of the fiftieth one is accepted again. */
  lemma FiftyTwoIsReached() returns (ids: seq<int>, i: nat, j: nat)
    ensures i < j < |AcceptedAll(ids)| && AcceptedAll(ids)[i] == AcceptedAll(ids)[j] && j - i == 52
  {
    var first := Numbers(101);
    ids, i, j := first + [49], 49, 101;
    AcceptedInOrder(101);
    assert ids[..101] == first;
    assert Window(first) == first[50..];
  }
}
