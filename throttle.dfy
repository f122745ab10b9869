/**
 * `Counter` (pkg/throttle/counter.go): the times of recent events in a
 * sliding window, with the value of the latest one.  Times are integers
 * (nanoseconds); each operation that reads the clock takes the reading as
 * its `now` parameter.
 */
module Throttle {

  /**
   * The loop of `prune` from position `i`: the index of the first time after
   * `cutoff`, or 0 when there is none.
   */
  function CutFrom(ts: seq<int>, cutoff: int, i: nat): (r: nat)
    requires i <= |ts|
    ensures (i <= r < |ts| && ts[r] > cutoff && forall j :: i <= j < r ==> ts[j] <= cutoff)
         || (r == 0 && forall j :: i <= j < |ts| ==> ts[j] <= cutoff)
    decreases |ts| - i
  {
    if i == |ts| then 0
    else if ts[i] > cutoff then i
    else CutFrom(ts, cutoff, i + 1)
  }

  /** The times `prune(now)` keeps: everything from the first time inside the window on. */
  function Pruned(ts: seq<int>, now: int, window: int): seq<int> {
    ts[CutFrom(ts, now - window, 0)..]
  }

  /** `n` copies of `t`, none for a negative `n`. */
  function Copies(t: int, n: int): (r: seq<int>)
    ensures |r| == if n > 0 then n else 0
    ensures forall j :: 0 <= j < |r| ==> r[j] == t
  {
    if n <= 0 then [] else Copies(t, n - 1) + [t]
  }

  /** Times in the order the clock gave them. */
  predicate Ascending(ts: seq<int>) {
    forall i, j :: 0 <= i < j < |ts| ==> ts[i] <= ts[j]
  }

  class Counter<T> {
    /** `MaxCount`: the count above which the counter is throttled. */
    const maxCount: int
    /** `Window`: the length of the sliding window. */
    const window: int
    /** The zero value of `T`. */
    const zero: T
    var lastValue: T
    var timestamps: seq<int>

    /** A counter with no events. */
    constructor (maxCount: int, window: int, zero: T)
      ensures this.maxCount == maxCount && this.window == window && this.zero == zero
      ensures lastValue == zero && timestamps == []
    {
      this.maxCount := maxCount;
      this.window := window;
      this.zero := zero;
      lastValue := zero;
      timestamps := [];
    }

    /** Drops the times before the first one inside the window. */
    method Prune(now: int)
      modifies this
      ensures timestamps == Pruned(old(timestamps), now, window)
      ensures lastValue == old(lastValue)
    {
      var cutoff := now - window;
      var cutIndex := 0;
      var i := 0;
      while i < |timestamps|
        invariant 0 <= i <= |timestamps|
        invariant cutIndex == 0
        invariant CutFrom(timestamps, cutoff, 0) == CutFrom(timestamps, cutoff, i)
      {
        if timestamps[i] > cutoff {
          cutIndex := i;
          break;
        }
        i := i + 1;
      }
      if cutIndex > 0 {
        timestamps := timestamps[cutIndex..];
      }
    }

    /** Records an event at `now`; answers whether the count now exceeds `maxCount`. */
    method Increment(value: T, now: int) returns (throttled: bool)
      modifies this
      ensures timestamps == Pruned(old(timestamps), now, window) + [now]
      ensures lastValue == value
      ensures throttled <==> |timestamps| > maxCount
    {
      Prune(now);
      timestamps := timestamps + [now];
      lastValue := value;
      throttled := |timestamps| > maxCount;
    }

    method Count(now: int) returns (n: int)
      modifies this
      ensures timestamps == Pruned(old(timestamps), now, window)
      ensures lastValue == old(lastValue)
      ensures n == |timestamps|
    {
      Prune(now);
      n := |timestamps|;
    }

    method Reset()
      modifies this
      ensures timestamps == [] && lastValue == zero
    {
      timestamps := [];
      lastValue := zero;
    }

    method Throttled(now: int) returns (throttled: bool)
      modifies this
      ensures timestamps == Pruned(old(timestamps), now, window)
      ensures lastValue == old(lastValue)
      ensures throttled <==> |timestamps| > maxCount
    {
      Prune(now);
      throttled := |timestamps| > maxCount;
    }

    /** Stores `value` and leaves `maxCount + 1` events at `now`, as if the limit had just been passed. */
    method Force(value: T, now: int)
      modifies this
      ensures lastValue == value
      ensures timestamps == Copies(now, maxCount + 1)
    {
      lastValue := value;
      timestamps := [];
      var i := 0;
      while i <= maxCount
        invariant 0 <= i && (i <= maxCount + 1 || i == 0)
        invariant lastValue == value
        invariant timestamps == Copies(now, i)
      {
        timestamps := timestamps + [now];
        i := i + 1;
      }
    }

    /**
     * The latest value with the time of the latest event, if any event is
     * left after pruning; otherwise the zero value and the zero time (0).
     */
    method Last(now: int) returns (v: T, t: int, found: bool)
      modifies this
      ensures timestamps == Pruned(old(timestamps), now, window)
      ensures lastValue == old(lastValue)
      ensures found <==> |timestamps| > 0
      ensures found ==> v == lastValue && t == timestamps[|timestamps| - 1]
      ensures !found ==> v == zero && t == 0
    {
      Prune(now);
      if |timestamps| == 0 {
        return zero, 0, false;
      }
      return lastValue, timestamps[|timestamps| - 1], true;
    }
  }

  // ---------------------------------------------------------------- properties

  /**
   * Pruning drops a prefix and keeps the order of the rest; every dropped
   * time lies outside the window.  It drops nothing when the first time is
   * inside the window, and nothing when no time is.
   */
  lemma PrunedIsStaleSuffix(ts: seq<int>, now: int, window: int)
    ensures var p := Pruned(ts, now, window);
      |p| <= |ts| && p == ts[|ts| - |p|..]
      && (forall j :: 0 <= j < |ts| - |p| ==> ts[j] <= now - window)
    ensures |ts| > 0 && ts[0] > now - window ==> Pruned(ts, now, window) == ts
    ensures (forall j :: 0 <= j < |ts| ==> ts[j] <= now - window) ==> Pruned(ts, now, window) == ts
  {
  }

  /**
   * When the times are in clock order and some time is inside the window,
   * exactly the times inside the window are kept.
   */
  lemma PrunedIsWindow(ts: seq<int>, now: int, window: int)
    requires Ascending(ts)
    requires exists j :: 0 <= j < |ts| && ts[j] > now - window
    ensures forall t :: t in Pruned(ts, now, window) <==> t in ts && t > now - window
  {
    var k := CutFrom(ts, now - window, 0);
    var p := Pruned(ts, now, window);
    assert k < |ts| && ts[k] > now - window by {
      var j :| 0 <= j < |ts| && ts[j] > now - window;
      assert !(forall i :: 0 <= i < |ts| ==> ts[i] <= now - window);
    }
    forall t | t in ts && t > now - window ensures t in p {
      var j :| 0 <= j < |ts| && ts[j] == t;
      assert j >= k;
      assert p[j - k] == t;
    }
    forall t | t in p ensures t > now - window {
      var j :| 0 <= j < |p| && p[j] == t;
      assert p[j] == ts[k + j];
    }
  }

  /** A second prune at the same instant changes nothing: `Count` and `Throttled` agree at one instant. */
  lemma PruneIsIdempotent(ts: seq<int>, now: int, window: int)
    ensures Pruned(Pruned(ts, now, window), now, window) == Pruned(ts, now, window)
  {
    var p := Pruned(ts, now, window);
    var k := CutFrom(ts, now - window, 0);
    if |p| > 0 && p[0] > now - window {
      assert CutFrom(p, now - window, 0) == 0;
    } else {
      assert forall j :: 0 <= j < |p| ==> p[j] <= now - window by {
        if |p| > 0 {
          assert p[0] == ts[k];
        }
      }
    }
  }

  /**
   * After `Force`, the counter stays throttled at every later reading until
   * reset: the forced times are all equal, so a prune keeps all or none of
   * them, and keeping none is never what `prune` does.
   */
  lemma ForcedStaysThrottled(maxCount: int, forcedAt: int, now: int, window: int)
    ensures |Pruned(Copies(forcedAt, maxCount + 1), now, window)| > maxCount
  {
  }

  /**
   * Stale times are dropped only when a time inside the window follows them:
   * with none inside the window, every time is kept however old it is.
   */
  lemma StaleKeptWithoutFreshEvent(ts: seq<int>, now: int, window: int)
    requires forall j :: 0 <= j < |ts| ==> ts[j] <= now - window
    ensures |Pruned(ts, now, window)| == |ts|
  {
  }

  /** `Increment` keeps the times in clock order when the clock does not run back. */
  lemma IncrementKeepsAscending(ts: seq<int>, now: int, window: int)
    requires Ascending(ts)
    requires forall j :: 0 <= j < |ts| ==> ts[j] <= now
    ensures Ascending(Pruned(ts, now, window) + [now])
  {
    var k := CutFrom(ts, now - window, 0);
    var p := Pruned(ts, now, window);
    var q := p + [now];
    forall i, j | 0 <= i < j < |q| ensures q[i] <= q[j] {
      assert p[i] == ts[k + i];
      if j < |p| {
        assert p[j] == ts[k + j];
      }
    }
  }
}
