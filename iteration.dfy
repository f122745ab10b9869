/**
 * Go's push iterators (`iter.Seq2`): a sequence of key/value pairs handed to
 * a `yield` function, one at a time, until `yield` returns false.  `yield`
 * is a pure function here; an iteration is described by the calls it makes.
 */
module Iteration {

  /** `visit` accepts every item. */
  predicate AllAccepted<V>(items: seq<(string, V)>, visit: (string, V) -> bool) {
    forall j :: 0 <= j < |items| ==> visit(items[j].0, items[j].1)
  }

  /** The calls an iteration makes: every item up to and including the first one `visit` refuses. */
  function YieldedUntilStop<V>(items: seq<(string, V)>, visit: (string, V) -> bool): seq<(string, V)> {
    if |items| == 0 then []
    else if !visit(items[0].0, items[0].1) then [items[0]]
    else [items[0]] + YieldedUntilStop(items[1..], visit)
  }

  /** The entries of `m` for the keys `ks`, in that order. */
  function Entries<V>(m: map<string, V>, ks: seq<string>): seq<(string, V)>
    requires forall k :: k in ks ==> k in m
  {
    seq(|ks|, i requires 0 <= i < |ks| => (ks[i], m[ks[i]]))
  }

  /** `ks` lists each key of `m` exactly once: one order Go's map iteration may pick. */
  predicate Enumerates<V>(ks: seq<string>, m: map<string, V>) {
    |ks| == |m| && (forall k :: k in ks ==> k in m) && (forall k :: k in m ==> k in ks)
    && (forall i, j :: 0 <= i < j < |ks| ==> ks[i] != ks[j])
  }

  /** Items `visit` accepts are passed through, and the iteration goes on. */
  lemma {:induction false} AcceptedPrefix<V>(a: seq<(string, V)>, b: seq<(string, V)>, visit: (string, V) -> bool)
    requires AllAccepted(a, visit)
    ensures YieldedUntilStop(a + b, visit) == a + YieldedUntilStop(b, visit)
    decreases |a|
  {
    if |a| > 0 {
      assert (a + b)[0] == a[0];
      assert (a + b)[1..] == a[1..] + b;
      AcceptedPrefix(a[1..], b, visit);
    } else {
      assert a + b == b;
    }
  }

  /** The first item `visit` refuses is the last call, whatever follows it. */
  lemma {:induction false} StopsAt<V>(items: seq<(string, V)>, rest: seq<(string, V)>, visit: (string, V) -> bool, i: nat)
    requires i < |items| && AllAccepted(items[..i], visit)
    requires !visit(items[i].0, items[i].1)
    ensures YieldedUntilStop(items + rest, visit) == items[..i + 1]
  {
    var t := items[i..] + rest;
    assert items + rest == items[..i] + t;
    AcceptedPrefix(items[..i], t, visit);
    assert t[0] == items[i];
    assert items[..i + 1] == items[..i] + [items[i]];
  }

  /** Once `visit` refuses an item, nothing after it is visited. */
  lemma {:induction false} StoppedWithin<V>(a: seq<(string, V)>, b: seq<(string, V)>, visit: (string, V) -> bool)
    requires !AllAccepted(a, visit)
    ensures YieldedUntilStop(a + b, visit) == YieldedUntilStop(a, visit)
    decreases |a|
  {
    assert |a| > 0;
    assert (a + b)[0] == a[0];
    if visit(a[0].0, a[0].1) {
      assert (a + b)[1..] == a[1..] + b;
      assert !AllAccepted(a[1..], visit) by {
        var j :| 0 <= j < |a| && !visit(a[j].0, a[j].1);
        assert a[1..][j - 1] == a[j];
      }
      StoppedWithin(a[1..], b, visit);
    }
  }

  /** Iterating over `a + b` is iterating over `a`, then over `b` if `a` was accepted throughout. */
  lemma ThenWalk<V>(a: seq<(string, V)>, b: seq<(string, V)>, visit: (string, V) -> bool)
    ensures YieldedUntilStop(a + b, visit)
         == if AllAccepted(a, visit) then a + YieldedUntilStop(b, visit) else YieldedUntilStop(a, visit)
  {
    if AllAccepted(a, visit) {
      AcceptedPrefix(a, b, visit);
    } else {
      StoppedWithin(a, b, visit);
    }
  }

  /** Iterating over three parts in turn: each part is entered only if the one before was accepted throughout. */
  lemma Chained<V>(a: seq<(string, V)>, b: seq<(string, V)>, c: seq<(string, V)>, visit: (string, V) -> bool)
    ensures YieldedUntilStop(a + b + c, visit)
         == if !AllAccepted(a, visit) then YieldedUntilStop(a, visit)
            else if !AllAccepted(b, visit) then YieldedUntilStop(a, visit) + YieldedUntilStop(b, visit)
            else YieldedUntilStop(a, visit) + YieldedUntilStop(b, visit) + YieldedUntilStop(c, visit)
  {
    assert a + b + c == a + (b + c);
    ThenWalk(a, b + c, visit);
    ThenWalk(b, c, visit);
    if AllAccepted(a, visit) {
      NeverStops(a, visit);
      if AllAccepted(b, visit) {
        NeverStops(b, visit);
      }
    }
  }

  lemma {:induction false} NeverStops<V>(items: seq<(string, V)>, visit: (string, V) -> bool)
    requires AllAccepted(items, visit)
    ensures YieldedUntilStop(items, visit) == items
  {
    AcceptedPrefix(items, [], visit);
    assert items + [] == items;
  }

  /**
   * An iteration makes a prefix of the calls, every one accepted but
   * possibly the last, which is refused unless the items ran out; when every
   * item is accepted it makes them all.
   */
  lemma {:induction false} YieldedIsPrefix<V>(items: seq<(string, V)>, visit: (string, V) -> bool)
    ensures var c := YieldedUntilStop(items, visit);
      |c| <= |items| && c == items[..|c|]
      && (forall j :: 0 <= j < |c| - 1 ==> visit(c[j].0, c[j].1))
      && (|c| < |items| ==> |c| > 0 && !visit(c[|c| - 1].0, c[|c| - 1].1))
    ensures AllAccepted(items, visit) ==> YieldedUntilStop(items, visit) == items
  {
    if AllAccepted(items, visit) {
      NeverStops(items, visit);
    }
    if |items| > 0 {
      YieldedIsPrefix(items[1..], visit);
      var c := YieldedUntilStop(items, visit);
      if visit(items[0].0, items[0].1) {
        var rest := YieldedUntilStop(items[1..], visit);
        assert c == [items[0]] + rest;
        assert items[..|c|] == [items[0]] + items[1..][..|rest|];
      }
    }
  }

  /**
   * `for k, v := range m` in the key order `order`, handing each entry to
   * `visit`; `more` is false once `visit` refuses one.
   */
  method YieldEntries<V>(m: map<string, V>, order: seq<string>, visit: (string, V) -> bool)
    returns (calls: seq<(string, V)>, more: bool)
    requires forall k :: k in order ==> k in m
    ensures calls == YieldedUntilStop(Entries(m, order), visit)
    ensures more == AllAccepted(Entries(m, order), visit)
  {
    ghost var items := Entries(m, order);
    calls := [];
    var i := 0;
    while i < |order|
      invariant 0 <= i <= |order|
      invariant calls == items[..i] && AllAccepted(calls, visit)
    {
      var k := order[i];
      calls := calls + [(k, m[k])];
      if !visit(k, m[k]) {
        StopsAt(items, [], visit, i);
        assert items + [] == items;
        return calls, false;
      }
      i := i + 1;
    }
    assert calls == items;
    NeverStops(items, visit);
    return calls, true;
  }
}
