/**
 * `SortedMapIter` (pkg/iterutil/maps.go): the entries of a map, handed to
 * `yield` in ascending key order.  Keys are strings, ordered as Go compares
 * them: byte by byte, which for the code points of a `string` here is code
 * point by code point.
 */
module SortedMap {
  import opened Iteration

  /** Go's `a < b` on strings. */
  predicate Less(a: string, b: string)
    decreases |a|
  {
    if |b| == 0 then false
    else if |a| == 0 then true
    else if a[0] != b[0] then a[0] < b[0]
    else Less(a[1..], b[1..])
  }

  /** Every key is below every later one. */
  predicate Ascending(ks: seq<string>) {
    forall i, j :: 0 <= i < j < |ks| ==> Less(ks[i], ks[j])
  }

  /** `k` put into the ascending `s` just ahead of the first key not below it. */
  function InsertSorted(s: seq<string>, k: string): (r: seq<string>)
    ensures |r| == |s| + 1
    ensures forall x :: x in r <==> x in s || x == k
  {
    if |s| == 0 then [k]
    else if Less(s[0], k) then [s[0]] + InsertSorted(s[1..], k)
    else [k] + s
  }

  /** The keys `ks` sorted, one insertion at a time, in the order they were collected. */
  function SortedOf(ks: seq<string>): (r: seq<string>)
    ensures |r| == |ks|
    ensures forall x :: x in r <==> x in ks
  {
    if |ks| == 0 then [] else InsertSorted(SortedOf(ks[..|ks| - 1]), ks[|ks| - 1])
  }

  /** `slices.Sort` on the collected keys. */
  method Sort(keys: seq<string>) returns (sorted: seq<string>)
    ensures sorted == SortedOf(keys)
  {
    sorted := [];
    var i := 0;
    while i < |keys|
      invariant 0 <= i <= |keys|
      invariant sorted == SortedOf(keys[..i])
    {
      assert keys[..i + 1][..i] == keys[..i];
      sorted := InsertSorted(sorted, keys[i]);
      i := i + 1;
    }
    assert keys[..|keys|] == keys;
  }

  /**
   * Collects the keys in the order the map is ranged over, sorts them, and
   * hands each entry to `visit` until it returns false; returns the calls
   * made.
   */
  method SortedMapIter<V>(m: map<string, V>, rangeOrder: seq<string>, visit: (string, V) -> bool)
    returns (calls: seq<(string, V)>)
    requires Enumerates(rangeOrder, m)
    ensures calls == YieldedUntilStop(Entries(m, SortedOf(rangeOrder)), visit)
  {
    var keys := [];
    var i := 0;
    while i < |rangeOrder|
      invariant 0 <= i <= |rangeOrder|
      invariant keys == rangeOrder[..i]
    {
      keys := keys + [rangeOrder[i]];
      i := i + 1;
    }
    assert keys == rangeOrder;
    keys := Sort(keys);
    var more;
    calls, more := YieldEntries(m, keys, visit);
  }

  // ---------------------------------------------------------------- the order

  lemma {:induction false} LessIrreflexive(a: string)
    ensures !Less(a, a)
    decreases |a|
  {
    if |a| > 0 {
      LessIrreflexive(a[1..]);
    }
  }

  lemma {:induction false} LessTransitive(a: string, b: string, c: string)
    requires Less(a, b) && Less(b, c)
    ensures Less(a, c)
    decreases |a|
  {
    if |a| > 0 && a[0] == b[0] && b[0] == c[0] {
      LessTransitive(a[1..], b[1..], c[1..]);
    }
  }

  /** Distinct strings are ordered one way and not the other. */
  lemma {:induction false} LessTotal(a: string, b: string)
    requires a != b
    ensures Less(a, b) != Less(b, a)
    decreases |a|
  {
    if |a| > 0 && |b| > 0 && a[0] == b[0] {
      assert a == [a[0]] + a[1..] && b == [b[0]] + b[1..];
      LessTotal(a[1..], b[1..]);
    }
  }

  // ---------------------------------------------------------------- sorting

  lemma {:induction false} InsertSortedAscending(s: seq<string>, k: string)
    requires Ascending(s) && k !in s
    ensures Ascending(InsertSorted(s, k))
    decreases |s|
  {
    if |s| > 0 {
      var r := InsertSorted(s, k);
      if Less(s[0], k) {
        assert s[1..] == s[1..];
        assert Ascending(s[1..]) by {
          forall i, j | 0 <= i < j < |s[1..]| ensures Less(s[1..][i], s[1..][j]) {
            assert s[1..][i] == s[i + 1] && s[1..][j] == s[j + 1];
          }
        }
        InsertSortedAscending(s[1..], k);
        var rest := InsertSorted(s[1..], k);
        forall i, j | 0 <= i < j < |r| ensures Less(r[i], r[j]) {
          if i == 0 {
            assert r[j] == rest[j - 1];
            assert r[j] in rest;
            if r[j] != k {
              var m :| 0 <= m < |s[1..]| && s[1..][m] == r[j];
              assert s[m + 1] == r[j];
            }
          } else {
            assert r[i] == rest[i - 1] && r[j] == rest[j - 1];
          }
        }
      } else {
        LessTotal(s[0], k);
        forall i, j | 0 <= i < j < |r| ensures Less(r[i], r[j]) {
          if i == 0 {
            assert r[j] == s[j - 1];
            if j > 1 {
              LessTransitive(k, s[0], s[j - 1]);
            }
          } else {
            assert r[i] == s[i - 1] && r[j] == s[j - 1];
          }
        }
      }
    }
  }

  /** Sorting keys that are all different gives them in ascending order. */
  lemma {:induction false} SortedOfAscending(ks: seq<string>)
    requires forall i, j :: 0 <= i < j < |ks| ==> ks[i] != ks[j]
    ensures Ascending(SortedOf(ks))
    decreases |ks|
  {
    if |ks| > 0 {
      var init := ks[..|ks| - 1];
      SortedOfAscending(init);
      InsertSortedAscending(SortedOf(init), ks[|ks| - 1]);
    }
  }

  /** Two ascending sequences of the same keys are the same sequence. */
  lemma {:induction false} AscendingUnique(a: seq<string>, b: seq<string>)
    requires Ascending(a) && Ascending(b)
    requires forall x :: x in a <==> x in b
    ensures a == b
    decreases |a|
  {
    if |a| == 0 {
      HeadIsIn(b);
    } else {
      assert |b| > 0 by { assert a[0] in b; }
      // The least key of each is the least key of the other.
      assert a[0] == b[0] by {
        if a[0] != b[0] {
          assert a[0] in a && b[0] in b;
          var i :| 0 <= i < |b| && b[i] == a[0];
          var j :| 0 <= j < |a| && a[j] == b[0];
          assert i > 0 && j > 0;
          LessTransitive(a[0], a[j], b[i]);
          LessIrreflexive(a[0]);
        }
      }
      assert Ascending(a[1..]) && Ascending(b[1..]) by {
        forall i, j | 0 <= i < j < |a[1..]| ensures Less(a[1..][i], a[1..][j]) {
          assert a[1..][i] == a[i + 1] && a[1..][j] == a[j + 1];
        }
        forall i, j | 0 <= i < j < |b[1..]| ensures Less(b[1..][i], b[1..][j]) {
          assert b[1..][i] == b[i + 1] && b[1..][j] == b[j + 1];
        }
      }
      forall x ensures x in a[1..] <==> x in b[1..] {
        AfterFirst(a, x);
        AfterFirst(b, x);
      }
      AscendingUnique(a[1..], b[1..]);
    }
  }

  lemma HeadIsIn(s: seq<string>)
    ensures |s| > 0 ==> s[0] in s
  {
  }

  /** In an ascending sequence the rest holds exactly the keys other than the first. */
  lemma AfterFirst(a: seq<string>, x: string)
    requires Ascending(a) && |a| > 0
    ensures x in a[1..] <==> x in a && x != a[0]
  {
    if x in a[1..] {
      var j :| 0 <= j < |a[1..]| && a[1..][j] == x;
      assert a[j + 1] == x;
      LessIrreflexive(a[0]);
    }
    if x in a && x != a[0] {
      var j :| 0 <= j < |a| && a[j] == x;
      assert a[1..][j - 1] == x;
    }
  }

  /**
   * `SortedMapIter` yields every entry once, keys ascending, whatever order
   * the map was ranged over: any two orders give the same iteration.
   */
  lemma SortedIterationIsDeterministic<V>(m: map<string, V>, order1: seq<string>, order2: seq<string>)
    requires Enumerates(order1, m) && Enumerates(order2, m)
    ensures Ascending(SortedOf(order1))
    ensures forall k :: k in SortedOf(order1) <==> k in m
    ensures SortedOf(order1) == SortedOf(order2)
  {
    SortedOfAscending(order1);
    SortedOfAscending(order2);
    AscendingUnique(SortedOf(order1), SortedOf(order2));
  }

  /** An empty map yields nothing. */
  lemma EmptyMapYieldsNothing<V>(m: map<string, V>, order: seq<string>, visit: (string, V) -> bool)
    requires Enumerates(order, m) && |m| == 0
    ensures YieldedUntilStop(Entries(m, SortedOf(order)), visit) == []
  {
  }
}
