/**
 * The menu builders of app/menu.go.  A `Menuer` is anything that produces
 * a list of menu items; the items a content value produces are taken as
 * given, so each builder receives them as a parameter.
 */
module MenuSections {
  import opened Wrappers
  import opened MenuItems
  import opened Iteration
  import opened SortedMap

  /**
   * `Section.MenuItems`: the title as a medium-weight heading, then the
   * items of the content, if there is a content.
   */
  function Section(title: string, content: Option<seq<MenuItem>>): (r: seq<MenuItem>)
    ensures |r| == 1 + (if content.Some? then |content.value| else 0)
    ensures r[0] == Heading(title) && r[0].weight == Medium
    ensures content.Some? ==> r[1..] == content.value
  {
    [Heading(title)] + (if content.Some? then content.value else [])
  }

  /** `StaticItem.MenuItems`: the item alone. */
  function StaticItem(item: MenuItem): (r: seq<MenuItem>)
    ensures |r| == 1 && r[0] == item
  {
    [item]
  }

  /** `AddrItem.MenuItems`: the listener's address, in a light font. */
  function AddrItem(addr: string): (r: seq<MenuItem>)
    ensures |r| == 1 && r[0].text == addr && r[0].weight == Light
  {
    [MenuItem(Regular, addr, Light)]
  }

  // ---------------------------------------------------------------- Sections

  /** Each part followed by a separator, in order: what the copy loop of `Sections` lays out. */
  function Separated(parts: seq<seq<MenuItem>>): (r: seq<MenuItem>)
    ensures |r| == Total(parts)
  {
    if |parts| == 0 then []
    else Separated(parts[..|parts| - 1]) + parts[|parts| - 1] + [SeparatorItem]
  }

  /** The slots `Sections` allocates: every part plus one separator each. */
  function Total(parts: seq<seq<MenuItem>>): nat {
    if |parts| == 0 then 0 else Total(parts[..|parts| - 1]) + |parts[|parts| - 1]| + 1
  }

  /** The sum of the lengths of the parts. */
  function SumLengths(parts: seq<seq<MenuItem>>): nat {
    if |parts| == 0 then 0 else SumLengths(parts[..|parts| - 1]) + |parts[|parts| - 1]|
  }

  lemma {:induction false} SeparatedLength(parts: seq<seq<MenuItem>>)
    ensures |Separated(parts)| == Total(parts) == SumLengths(parts) + |parts|
  {
    if |parts| > 0 {
      SeparatedLength(parts[..|parts| - 1]);
    }
  }

  /**
   * `Sections.MenuItems` over the items each section produced: nothing (nil)
   * for no sections; otherwise the parts with one separator between each
   * two, the separator after the last dropped.
   */
  function JoinedSections(parts: seq<seq<MenuItem>>): (r: seq<MenuItem>)
  {
    if |parts| == 0 then [] else Separated(parts)[..Total(parts) - 1]
  }

  /** The first loop of `Sections`: the total number of slots. */
  method CountSlots(parts: seq<seq<MenuItem>>) returns (total: nat)
    ensures total == Total(parts)
  {
    total := 0;
    var i := 0;
    while i < |parts|
      invariant 0 <= i <= |parts|
      invariant total == Total(parts[..i])
    {
      assert parts[..i + 1][..i] == parts[..i];
      total := total + |parts[i]| + 1;
      i := i + 1;
    }
    assert parts[..|parts|] == parts;
  }

  /** `copy(out[idx:], items)`. */
  method CopyInto(out: array<MenuItem>, idx: nat, items: seq<MenuItem>)
    requires idx + |items| <= out.Length
    modifies out
    ensures out[..idx + |items|] == old(out[..idx]) + items
  {
    var k := 0;
    while k < |items|
      invariant 0 <= k <= |items|
      invariant out[..idx + k] == old(out[..idx]) + items[..k]
    {
      out[idx + k] := items[k];
      assert out[..idx + k + 1] == out[..idx + k] + [items[k]];
      assert items[..k + 1] == items[..k] + [items[k]];
      k := k + 1;
    }
    assert items[..|items|] == items;
  }

  /** `Sections.MenuItems`, filling an array of `Total(parts)` zero items. */
  method Sections(parts: seq<seq<MenuItem>>) returns (r: seq<MenuItem>)
    ensures r == JoinedSections(parts)
  {
    if |parts| == 0 {
      return [];
    }
    var total := CountSlots(parts);
    var out := new MenuItem[total](_ => Blank);
    var idx := 0;
    var i := 0;
    while i < |parts|
      invariant 0 <= i <= |parts|
      invariant idx == Total(parts[..i]) && idx <= total
      invariant out[..idx] == Separated(parts[..i])
    {
      assert parts[..i + 1][..i] == parts[..i];
      PrefixTotal(parts, i + 1);
      CopyInto(out, idx, parts[i]);
      idx := idx + |parts[i]|;
      out[idx] := SeparatorItem;
      assert out[..idx + 1] == out[..idx] + [SeparatorItem];
      idx := idx + 1;
      i := i + 1;
    }
    assert parts[..|parts|] == parts;
    r := out[..total - 1];
  }

  /** The slots of a prefix of the parts fit in the slots of all of them. */
  lemma {:induction false} PrefixTotal(parts: seq<seq<MenuItem>>, k: nat)
    requires k <= |parts|
    ensures Total(parts[..k]) <= Total(parts)
    decreases |parts| - k
  {
    if k < |parts| {
      PrefixTotal(parts, k + 1);
      assert parts[..k + 1][..k] == parts[..k];
    } else {
      assert parts[..k] == parts;
    }
  }

  // ---------------------------------------------------------------- properties

  /** No sections give no items. */
  lemma NoSectionsNoItems()
    ensures JoinedSections([]) == []
  {
  }

  /** With at least one section the output has the sum of their lengths plus one separator fewer than sections. */
  lemma SectionsLength(parts: seq<seq<MenuItem>>)
    requires |parts| > 0
    ensures |JoinedSections(parts)| == SumLengths(parts) + |parts| - 1
  {
    SeparatedLength(parts);
  }

  /**
   * The output ends with the last section's items: the separator after it
   * is the one dropped, and the earlier sections are each followed by theirs.
   */
  lemma EndsWithLastSection(parts: seq<seq<MenuItem>>)
    requires |parts| > 0
    ensures JoinedSections(parts) == Separated(parts[..|parts| - 1]) + parts[|parts| - 1]
  {
    var init := parts[..|parts| - 1];
    assert Separated(parts) == Separated(init) + parts[|parts| - 1] + [SeparatorItem];
  }

  /** Where section `i` starts. */
  function OffsetOf(parts: seq<seq<MenuItem>>, i: nat): nat
    requires i <= |parts|
  {
    Total(parts[..i])
  }

  /**
   * Section `i` sits at its offset unchanged, and is followed by exactly one
   * separator, which starts the next section's offset.
   */
  lemma {:induction false} SectionInPlace(parts: seq<seq<MenuItem>>, i: nat)
    requires i < |parts|
    ensures OffsetOf(parts, i) + |parts[i]| < |Separated(parts)|
    ensures Separated(parts)[OffsetOf(parts, i)..OffsetOf(parts, i) + |parts[i]|] == parts[i]
    ensures Separated(parts)[OffsetOf(parts, i) + |parts[i]|] == SeparatorItem
    ensures OffsetOf(parts, i + 1) == OffsetOf(parts, i) + |parts[i]| + 1
    decreases |parts|
  {
    var n := |parts|;
    var init := parts[..n - 1];
    var s := Separated(init);
    var whole := Separated(parts);
    assert whole == s + parts[n - 1] + [SeparatorItem];
    assert parts[..i + 1][..i] == parts[..i];
    var lo := OffsetOf(parts, i);
    var hi := lo + |parts[i]|;
    if i == n - 1 {
      assert parts[..i] == init;
      assert parts[..i + 1] == parts;
      assert lo == |s|;
      assert whole[lo..hi] == parts[i];
    } else {
      SectionInPlace(init, i);
      assert init[..i] == parts[..i] && init[..i + 1] == parts[..i + 1];
      assert hi < |s|;
      assert whole[..|s|] == s;
      assert whole[lo..hi] == s[lo..hi];
      assert whole[hi] == s[hi];
    }
  }

  // ---------------------------------------------------------------- DialerPool

  /**
   * `DialerPool.MenuItems`: one item per pooled dialer, in ascending order
   * of name; `itemOf` is `PooledDialer.MenuItem`.
   */
  method DialerPoolItems<D>(dp: map<string, D>, rangeOrder: seq<string>, itemOf: D -> MenuItem)
    returns (items: seq<MenuItem>)
    requires Enumerates(rangeOrder, dp)
    ensures |items| == |dp|
    ensures forall i :: 0 <= i < |items| ==> items[i] == itemOf(dp[SortedOf(rangeOrder)[i]])
  {
    var keys := SortedOf(rangeOrder);
    assert forall k :: k in keys ==> k in dp;
    ghost var entries := Entries(dp, keys);
    AlwaysAccepted(entries);
    NeverStops(entries, KeepGoing);
    var calls := SortedMapIter(dp, rangeOrder, KeepGoing);
    assert |calls| == |dp|;
    items := FillItems(calls, itemOf);
  }

  /** The body of the range loop of `DialerPool.MenuItems`: slot `idx` gets the item of the `idx`-th dialer. */
  method FillItems<D>(calls: seq<(string, D)>, itemOf: D -> MenuItem) returns (items: seq<MenuItem>)
    ensures |items| == |calls|
    ensures forall j :: 0 <= j < |items| ==> items[j] == itemOf(calls[j].1)
  {
    var out := new MenuItem[|calls|](_ => Blank);
    var idx := 0;
    while idx < |calls|
      invariant 0 <= idx <= |calls| == out.Length
      invariant forall j :: 0 <= j < idx ==> out[j] == itemOf(calls[j].1)
    {
      out[idx] := itemOf(calls[idx].1);
      idx := idx + 1;
    }
    items := out[..];
  }

  /** The `yield` of `DialerPool.MenuItems`, which never stops the iteration. */
  function KeepGoing<D>(name: string, d: D): bool {
    true
  }

  lemma AlwaysAccepted<D>(items: seq<(string, D)>)
    ensures AllAccepted(items, KeepGoing)
  {
  }

  /** The dialer items do not depend on the order the pool map was ranged over. */
  lemma DialerItemsIndependentOfOrder<D>(dp: map<string, D>, order1: seq<string>, order2: seq<string>, i: nat)
    requires Enumerates(order1, dp) && Enumerates(order2, dp) && i < |dp|
    ensures SortedOf(order1)[i] == SortedOf(order2)[i]
    ensures Ascending(SortedOf(order1))
  {
    SortedIterationIsDeterministic(dp, order1, order2);
  }
}
