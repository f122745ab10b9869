/**
 * `CIDR` (pkg/trie/cidr.go): an ordered list of networks with their values,
 * searched front to back.  `Insert` puts the new entry in front of every
 * entry with a shorter mask that it passes, and always appends it as well.
 */
module CidrList {
  import opened Wrappers
  import opened NetAddr

  /** A `cidrNode`: a network and its value. */
  datatype Entry<V> = Entry(network: Network, value: V)

  /**
   * The insertion loop of `Insert`, from position `i` of the list as it was
   * when the call began (`snap`), on the list as it is now (`cur`): where the
   * new entry's mask is longer than the old entry's at `i`, the new entry is
   * put in at position `i` of the current list.
   */
  function Spread<V>(snap: seq<Entry<V>>, cur: seq<Entry<V>>, i: nat, m: Entry<V>): (r: seq<Entry<V>>)
    requires i <= |snap| <= |cur|
    ensures |r| >= |cur|
    decreases |snap| - i
  {
    if i == |snap| then cur
    else if m.network.ones > snap[i].network.ones then Spread(snap, cur[..i] + [m] + cur[i..], i + 1, m)
    else Spread(snap, cur, i + 1, m)
  }

  /** The list after `Insert(m)`. */
  function Inserted<V>(t: seq<Entry<V>>, m: Entry<V>): seq<Entry<V>> {
    Spread(t, t, 0, m) + [m]
  }

  /** The number of entries of `t` from `i` on whose mask is shorter than `ones`. */
  function Shorter<V>(t: seq<Entry<V>>, i: nat, ones: nat): nat
    requires i <= |t|
    decreases |t| - i
  {
    if i == |t| then 0
    else (if ones > t[i].network.ones then 1 else 0) + Shorter(t, i + 1, ones)
  }

  /** The value of the first entry whose network contains `ip`. */
  function FirstMatch<V>(t: seq<Entry<V>>, ip: seq<bool>): Option<V> {
    if |t| == 0 then None
    else if Contains(t[0].network, ip) then Some(t[0].value)
    else FirstMatch(t[1..], ip)
  }

  /** The list without any copy of `m`. */
  function Without<V(==)>(t: seq<Entry<V>>, m: Entry<V>): seq<Entry<V>> {
    if |t| == 0 then []
    else (if t[0] == m then [] else [t[0]]) + Without(t[1..], m)
  }

  class CIDR<V> {
    var entries: seq<Entry<V>>

    /** The empty list, Go's nil slice. */
    constructor ()
      ensures entries == []
    {
      entries := [];
    }

    method Insert(network: Network, value: V)
      modifies this
      ensures entries == Inserted(old(entries), Entry(network, value))
    {
      var m := Entry(network, value);
      var ones := network.ones;
      var snap := entries;
      var i := 0;
      while i < |snap|
        invariant 0 <= i <= |snap| <= |entries|
        invariant Spread(snap, entries, i, m) == Spread(snap, snap, 0, m)
      {
        var curr := snap[i].network.ones;
        if ones > curr {
          entries := entries[..i] + [m] + entries[i..];
        }
        i := i + 1;
      }
      entries := entries + [m];
    }

    method Match(ip: seq<bool>) returns (r: Option<V>)
      ensures r == FirstMatch(entries, ip)
    {
      var i := 0;
      while i < |entries|
        invariant 0 <= i <= |entries|
        invariant FirstMatch(entries, ip) == FirstMatch(entries[i..], ip)
      {
        assert entries[i..][1..] == entries[i + 1..];
        if Contains(entries[i].network, ip) {
          return Some(entries[i].value);
        }
        i := i + 1;
      }
      return None;
    }
  }

  // ---------------------------------------------------------------- properties

  /** Each pass of the loop adds one copy of the new entry per shorter mask, and nothing else. */
  lemma {:induction false} SpreadCounts<V>(snap: seq<Entry<V>>, cur: seq<Entry<V>>, i: nat, m: Entry<V>)
    requires i <= |snap| <= |cur|
    ensures |Spread(snap, cur, i, m)| == |cur| + Shorter(snap, i, m.network.ones)
    ensures multiset(Spread(snap, cur, i, m))
         == multiset(cur)[m := multiset(cur)[m] + Shorter(snap, i, m.network.ones)]
    decreases |snap| - i
  {
    if i < |snap| {
      if m.network.ones > snap[i].network.ones {
        var next := cur[..i] + [m] + cur[i..];
        SpreadCounts(snap, next, i + 1, m);
        assert cur == cur[..i] + cur[i..];
        assert multiset(next) == multiset(cur) + multiset{m};
      } else {
        SpreadCounts(snap, cur, i + 1, m);
      }
    } else {
      assert multiset(cur)[m := multiset(cur)[m]] == multiset(cur);
    }
  }

  /**
   * `Insert` ends the list with the new entry and adds one more copy of it
   * for each old entry with a shorter mask; no other entry is added or lost.
   */
  lemma InsertedContents<V>(t: seq<Entry<V>>, m: Entry<V>)
    ensures |Inserted(t, m)| == |t| + 1 + Shorter(t, 0, m.network.ones)
    ensures Inserted(t, m)[|Inserted(t, m)| - 1] == m
    ensures multiset(Inserted(t, m))
         == multiset(t)[m := multiset(t)[m] + 1 + Shorter(t, 0, m.network.ones)]
  {
    SpreadCounts(t, t, 0, m);
  }

  lemma {:induction false} SpreadFrom<V>(snap: seq<Entry<V>>, cur: seq<Entry<V>>, i: nat, m: Entry<V>)
    requires i <= |snap| <= |cur|
    ensures forall x :: x in Spread(snap, cur, i, m) ==> x in cur || x == m
    decreases |snap| - i
  {
    if i < |snap| {
      if m.network.ones > snap[i].network.ones {
        var next := cur[..i] + [m] + cur[i..];
        SpreadFrom(snap, next, i + 1, m);
        assert forall x :: x in next ==> x in cur || x == m by {
          assert cur == cur[..i] + cur[i..];
        }
      } else {
        SpreadFrom(snap, cur, i + 1, m);
      }
    }
  }

  /** Every entry of the new list is an old entry or the new one. */
  lemma InsertedFrom<V>(t: seq<Entry<V>>, m: Entry<V>)
    ensures forall x :: x in Inserted(t, m) ==> x in t || x == m
  {
    SpreadFrom(t, t, 0, m);
  }

  lemma {:induction false} WithoutAppend<V>(a: seq<Entry<V>>, b: seq<Entry<V>>, m: Entry<V>)
    ensures Without(a + b, m) == Without(a, m) + Without(b, m)
    decreases |a|
  {
    if |a| > 0 {
      assert (a + b)[1..] == a[1..] + b;
      WithoutAppend(a[1..], b, m);
    } else {
      assert a + b == b;
    }
  }

  lemma {:induction false} SpreadKeepsOthers<V>(snap: seq<Entry<V>>, cur: seq<Entry<V>>, i: nat, m: Entry<V>)
    requires i <= |snap| <= |cur|
    ensures Without(Spread(snap, cur, i, m), m) == Without(cur, m)
    decreases |snap| - i
  {
    if i < |snap| {
      if m.network.ones > snap[i].network.ones {
        var next := cur[..i] + [m] + cur[i..];
        SpreadKeepsOthers(snap, next, i + 1, m);
        WithoutAppend(cur[..i] + [m], cur[i..], m);
        WithoutAppend(cur[..i], [m], m);
        WithoutAppend(cur[..i], cur[i..], m);
        assert cur == cur[..i] + cur[i..];
      } else {
        SpreadKeepsOthers(snap, cur, i + 1, m);
      }
    }
  }

  /** The old entries keep their relative order: only copies of the new entry are added. */
  lemma InsertedKeepsOrder<V>(t: seq<Entry<V>>, m: Entry<V>)
    ensures Without(Inserted(t, m), m) == Without(t, m)
  {
    SpreadKeepsOthers(t, t, 0, m);
    WithoutAppend(Spread(t, t, 0, m), [m], m);
  }

  lemma {:induction false} SpreadKeepsPrefix<V>(snap: seq<Entry<V>>, cur: seq<Entry<V>>, i: nat, m: Entry<V>)
    requires i <= |snap| <= |cur|
    ensures Spread(snap, cur, i, m)[..i] == cur[..i]
    decreases |snap| - i
  {
    if i < |snap| {
      if m.network.ones > snap[i].network.ones {
        var next := cur[..i] + [m] + cur[i..];
        SpreadKeepsPrefix(snap, next, i + 1, m);
        assert next[..i + 1][..i] == cur[..i];
      } else {
        SpreadKeepsPrefix(snap, cur, i + 1, m);
      }
    }
  }

  lemma {:induction false} SpreadSkips<V>(snap: seq<Entry<V>>, i: nat, j: nat, m: Entry<V>)
    requires i <= j <= |snap|
    requires forall k :: i <= k < j ==> m.network.ones <= snap[k].network.ones
    ensures Spread(snap, snap, i, m) == Spread(snap, snap, j, m)
    decreases j - i
  {
    if i < j {
      SpreadSkips(snap, i + 1, j, m);
    }
  }

  /**
   * The new entry lands just ahead of the first old entry with a shorter
   * mask, so it is tried before every network less specific than it.
   */
  lemma InsertedAheadOfShorter<V>(t: seq<Entry<V>>, m: Entry<V>, i0: nat)
    requires i0 < |t| && t[i0].network.ones < m.network.ones
    requires forall k :: 0 <= k < i0 ==> m.network.ones <= t[k].network.ones
    ensures Inserted(t, m)[..i0] == t[..i0]
    ensures Inserted(t, m)[i0] == m
  {
    SpreadSkips(t, 0, i0, m);
    var next := t[..i0] + [m] + t[i0..];
    SpreadKeepsPrefix(t, next, i0 + 1, m);
    assert Spread(t, t, 0, m) == Spread(t, next, i0 + 1, m);
    var r := Spread(t, next, i0 + 1, m);
    assert r[..i0 + 1] == next[..i0 + 1];
    assert r[..i0] == r[..i0 + 1][..i0];
  }

  /**
   * `Match` answers with the value of the first entry, in list order, whose
   * network contains the address, and answers nothing when none does.
   */
  lemma {:induction false} FirstMatchFinds<V>(t: seq<Entry<V>>, ip: seq<bool>)
    ensures FirstMatch(t, ip).Some? ==>
      exists i :: 0 <= i < |t| && Contains(t[i].network, ip) && FirstMatch(t, ip).value == t[i].value
        && forall k :: 0 <= k < i ==> !Contains(t[k].network, ip)
    ensures FirstMatch(t, ip).None? <==> forall i :: 0 <= i < |t| ==> !Contains(t[i].network, ip)
  {
    if |t| > 0 {
      FirstMatchFinds(t[1..], ip);
      if !Contains(t[0].network, ip) {
        if FirstMatch(t, ip).Some? {
          var i :| 0 <= i < |t[1..]| && Contains(t[1..][i].network, ip) && FirstMatch(t[1..], ip).value == t[1..][i].value
            && forall k :: 0 <= k < i ==> !Contains(t[1..][k].network, ip);
          assert Contains(t[i + 1].network, ip);
          assert forall k :: 0 <= k < i + 1 ==> !Contains(t[k].network, ip) by {
            forall k | 0 <= k < i + 1 ensures !Contains(t[k].network, ip) {
              if k > 0 { assert t[k] == t[1..][k - 1]; }
            }
          }
        } else {
          forall i | 0 <= i < |t| ensures !Contains(t[i].network, ip) {
            if i > 0 { assert t[i] == t[1..][i - 1]; }
          }
        }
      }
    }
  }

  /** A hit in a prefix answers for the whole list; otherwise the rest decides. */
  lemma {:induction false} FirstMatchAppend<V>(a: seq<Entry<V>>, b: seq<Entry<V>>, ip: seq<bool>)
    ensures FirstMatch(a + b, ip) == if FirstMatch(a, ip).Some? then FirstMatch(a, ip) else FirstMatch(b, ip)
    decreases |a|
  {
    if |a| > 0 {
      assert (a + b)[1..] == a[1..] + b;
      FirstMatchAppend(a[1..], b, ip);
    } else {
      assert a + b == b;
    }
  }

  /** Dropping copies of an entry that does not contain the address changes no answer. */
  lemma {:induction false} FirstMatchWithout<V>(q: seq<Entry<V>>, m: Entry<V>, ip: seq<bool>)
    requires !Contains(m.network, ip)
    ensures FirstMatch(Without(q, m), ip) == FirstMatch(q, ip)
    decreases |q|
  {
    if |q| > 0 {
      FirstMatchWithout(q[1..], m, ip);
      var head := if q[0] == m then [] else [q[0]];
      FirstMatchAppend(head, Without(q[1..], m), ip);
    }
  }

  /**
   * Once the new entry has its first copy, how many further copies follow,
   * and where, does not matter to `Match`: two lists that agree up to that
   * copy and on the other entries after it answer every address alike.
   */
  lemma ExtraCopiesIgnored<V>(p: seq<Entry<V>>, m: Entry<V>, q1: seq<Entry<V>>, q2: seq<Entry<V>>, ip: seq<bool>)
    requires Without(q1, m) == Without(q2, m)
    ensures FirstMatch(p + [m] + q1, ip) == FirstMatch(p + [m] + q2, ip)
  {
    FirstMatchAppend(p, [m] + q1, ip);
    FirstMatchAppend(p, [m] + q2, ip);
    assert p + [m] + q1 == p + ([m] + q1);
    assert p + [m] + q2 == p + ([m] + q2);
    FirstMatchAppend([m], q1, ip);
    FirstMatchAppend([m], q2, ip);
    if !Contains(m.network, ip) {
      FirstMatchWithout(q1, m, ip);
      FirstMatchWithout(q2, m, ip);
    }
  }

  /** After `Insert`, every address in the new network finds some entry. */
  lemma InsertedCovers<V>(t: seq<Entry<V>>, m: Entry<V>, ip: seq<bool>)
    requires Contains(m.network, ip)
    ensures FirstMatch(Inserted(t, m), ip).Some?
  {
    var r := Inserted(t, m);
    InsertedContents(t, m);
    FirstMatchFinds(r, ip);
    assert Contains(r[|r| - 1].network, ip);
  }
}
