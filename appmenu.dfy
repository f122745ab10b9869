/**
 * The grouped menu of internal/app/menu.go: one flat list of menu items,
 * cut into contiguous groups, every group after the first led by a
 * separator.  A pointer into the flat list (`*menuet.MenuItem`) is modelled
 * as the index it points at, so "rebinding" a node sets the index it holds.
 */
module GroupedMenu {
  import opened MenuItems

  // ---------------------------------------------------------------- the layout

  /**
   * Group `g` starts at `starts[g]` and holds `|nodes[g]|` items; the groups
   * follow each other without a gap from index 0 to the end of `items`, and
   * node `j` of group `g` points at slot `starts[g] + j`.
   */
  predicate Tiles(items: seq<MenuItem>, starts: seq<int>, nodes: seq<seq<int>>) {
    |starts| == |nodes|
    && (|starts| == 0 ==> |items| == 0)
    && (|starts| > 0 ==> starts[0] == 0 && starts[|starts| - 1] + |nodes[|starts| - 1]| == |items|)
    && (forall g :: 0 <= g < |starts| ==> 0 <= starts[g] && starts[g] + |nodes[g]| <= |items|)
    && (forall g :: 0 <= g < |starts| - 1 ==> starts[g + 1] == starts[g] + |nodes[g]|)
    && (forall g, j :: 0 <= g < |nodes| && 0 <= j < |nodes[g]| ==> nodes[g][j] == starts[g] + j)
  }

  /** The items of each group, in group order. */
  function GroupsOf(items: seq<MenuItem>, starts: seq<int>, nodes: seq<seq<int>>): (r: seq<seq<MenuItem>>)
    requires Tiles(items, starts, nodes)
    ensures |r| == |starts|
    ensures forall g :: 0 <= g < |r| ==> |r[g]| == |nodes[g]|
  {
    seq(|starts|, g requires 0 <= g < |starts| => items[starts[g]..starts[g] + |nodes[g]|])
  }

  /** Every group after the first is non-empty and begins with a separator. */
  predicate SeparatorLed(groups: seq<seq<MenuItem>>) {
    forall g :: 1 <= g < |groups| ==> |groups[g]| > 0 && groups[g][0] == SeparatorItem
  }

  /** The groups laid end to end. */
  function Flatten(groups: seq<seq<MenuItem>>): seq<MenuItem> {
    if |groups| == 0 then [] else Flatten(groups[..|groups| - 1]) + groups[|groups| - 1]
  }

  /** Where the first `k` groups end. */
  function EndOf(starts: seq<int>, nodes: seq<seq<int>>, k: nat): int
    requires |starts| == |nodes| && k <= |starts|
  {
    if k == 0 then 0 else starts[k - 1] + |nodes[k - 1]|
  }

  /** The first `k` groups laid end to end are the items before the end of group `k - 1`. */
  lemma {:induction false} FlattenPrefix(items: seq<MenuItem>, starts: seq<int>, nodes: seq<seq<int>>, k: nat)
    requires Tiles(items, starts, nodes) && k <= |starts|
    ensures 0 <= EndOf(starts, nodes, k) <= |items|
    ensures Flatten(GroupsOf(items, starts, nodes)[..k]) == items[..EndOf(starts, nodes, k)]
  {
    var gs := GroupsOf(items, starts, nodes);
    if k > 0 {
      FlattenPrefix(items, starts, nodes, k - 1);
      assert gs[..k][..k - 1] == gs[..k - 1];
      var a := EndOf(starts, nodes, k - 1);
      assert a == starts[k - 1];
      var b := EndOf(starts, nodes, k);
      assert items[..a] + items[a..b] == items[..b];
    }
  }

  /** The groups tile the flat list: laid end to end they are exactly the items. */
  lemma GroupsTileItems(items: seq<MenuItem>, starts: seq<int>, nodes: seq<seq<int>>)
    requires Tiles(items, starts, nodes)
    ensures Flatten(GroupsOf(items, starts, nodes)) == items
  {
    var gs := GroupsOf(items, starts, nodes);
    FlattenPrefix(items, starts, nodes, |starts|);
    assert gs[..|starts|] == gs;
    assert items[..EndOf(starts, nodes, |starts|)] == items;
  }

  /** Slices of `xs` with `v` inserted at `p`, against slices of `xs`. */
  lemma InsertedSlices(xs: seq<MenuItem>, p: int, v: MenuItem, lo: int, hi: int)
    requires 0 <= p <= |xs| && 0 <= lo <= hi <= |xs|
    ensures var ys := xs[..p] + [v] + xs[p..];
      (hi <= p ==> ys[lo..hi] == xs[lo..hi])
      && (hi == p ==> ys[lo..hi + 1] == xs[lo..hi] + [v])
      && (p <= lo ==> ys[lo + 1..hi + 1] == xs[lo..hi])
  {
    var ys := xs[..p] + [v] + xs[p..];
    if hi <= p {
      assert forall i :: lo <= i < hi ==> ys[i] == xs[i];
    }
    if hi == p {
      assert forall i :: lo <= i < hi ==> ys[i] == xs[i];
      assert ys[hi] == v;
    }
    if p <= lo {
      assert forall i :: lo <= i < hi ==> ys[i + 1] == xs[i];
    }
  }

  /**
   * Inserting `item` after the last item of group `g`, growing that group by
   * one and moving the later groups one slot on, appends `item` to group `g`
   * and leaves every other group as it was.
   */
  lemma InsertedGroups(items: seq<MenuItem>, starts: seq<int>, nodes: seq<seq<int>>, g: nat, item: MenuItem,
                       items2: seq<MenuItem>, starts2: seq<int>, nodes2: seq<seq<int>>)
    requires Tiles(items, starts, nodes) && Tiles(items2, starts2, nodes2) && g < |starts| == |starts2|
    requires items2 == items[..starts[g] + |nodes[g]|] + [item] + items[starts[g] + |nodes[g]|..]
    requires forall h :: 0 <= h < |starts| ==> starts2[h] == if h <= g then starts[h] else starts[h] + 1
    requires forall h :: 0 <= h < |nodes| ==> |nodes2[h]| == if h == g then |nodes[h]| + 1 else |nodes[h]|
    ensures GroupsOf(items2, starts2, nodes2) == GroupsOf(items, starts, nodes)[g := GroupsOf(items, starts, nodes)[g] + [item]]
  {
    var before := GroupsOf(items, starts, nodes);
    var after := GroupsOf(items2, starts2, nodes2);
    forall h | 0 <= h < |starts|
      ensures after[h] == before[g := before[g] + [item]][h]
    {
      InsertedGroup(items, starts, nodes, g, item, items2, starts2, nodes2, h);
    }
  }

  /** The layout after `insert` still tiles the grown item list. */
  lemma InsertedTiles(items: seq<MenuItem>, starts: seq<int>, nodes: seq<seq<int>>, g: nat, item: MenuItem,
                      items2: seq<MenuItem>, starts2: seq<int>, nodes2: seq<seq<int>>)
    requires Tiles(items, starts, nodes) && g < |starts| == |starts2| == |nodes2|
    requires |items2| == |items| + 1
    requires forall h :: 0 <= h < |starts| ==> starts2[h] == if h <= g then starts[h] else starts[h] + 1
    requires forall h :: 0 <= h < |nodes2| ==> |nodes2[h]| == if h == g then |nodes[h]| + 1 else |nodes[h]|
    requires forall h :: 0 <= h < g ==> nodes2[h] == nodes[h]
    requires nodes2[g] == nodes[g] + [starts[g] + |nodes[g]|]
    requires forall h, j :: g < h < |nodes2| && 0 <= j < |nodes2[h]| ==> nodes2[h][j] == starts2[h] + j
    ensures Tiles(items2, starts2, nodes2)
  {
    forall h, j | 0 <= h < |nodes2| && 0 <= j < |nodes2[h]| ensures nodes2[h][j] == starts2[h] + j {
      if h == g && j < |nodes[g]| {
        assert nodes2[h][j] == nodes[h][j];
      }
    }
  }

  /** `InsertedGroups`, one group `h` at a time. */
  lemma InsertedGroup(items: seq<MenuItem>, starts: seq<int>, nodes: seq<seq<int>>, g: nat, item: MenuItem,
                      items2: seq<MenuItem>, starts2: seq<int>, nodes2: seq<seq<int>>, h: nat)
    requires Tiles(items, starts, nodes) && Tiles(items2, starts2, nodes2) && g < |starts| == |starts2|
    requires items2 == items[..starts[g] + |nodes[g]|] + [item] + items[starts[g] + |nodes[g]|..]
    requires h < |starts| && starts2[h] == if h <= g then starts[h] else starts[h] + 1
    requires |nodes2[h]| == if h == g then |nodes[h]| + 1 else |nodes[h]|
    ensures GroupsOf(items2, starts2, nodes2)[h] == if h == g then GroupsOf(items, starts, nodes)[h] + [item]
                                                     else GroupsOf(items, starts, nodes)[h]
  {
    var p := starts[g] + |nodes[g]|;
    var lo, hi := starts[h], starts[h] + |nodes[h]|;
    GroupAt(items, starts, nodes, h);
    GroupAt(items2, starts2, nodes2, h);
    GroupAt(items, starts, nodes, g);
    if h < g {
      AscendingStarts(items, starts, nodes, h, g);
      InsertedSlices(items, p, item, lo, hi);
    } else if h == g {
      InsertedSlices(items, p, item, lo, hi);
    } else {
      assert p <= lo by {
        AscendingStarts(items, starts, nodes, g, h);
      }
      InsertedSlices(items, p, item, lo, hi);
    }
  }

  /** Group `h` is the slice of the items its start and length give. */
  lemma GroupAt(items: seq<MenuItem>, starts: seq<int>, nodes: seq<seq<int>>, h: nat)
    requires Tiles(items, starts, nodes) && h < |starts|
    ensures 0 <= starts[h] <= starts[h] + |nodes[h]| <= |items|
    ensures GroupsOf(items, starts, nodes)[h] == items[starts[h]..starts[h] + |nodes[h]|]
  {
  }

  /** An empty group added at the end of the items keeps the tiling and the other groups. */
  lemma AppendedEmptyGroup(items: seq<MenuItem>, starts: seq<int>, nodes: seq<seq<int>>)
    requires Tiles(items, starts, nodes)
    ensures Tiles(items, starts + [|items|], nodes + [[]])
    ensures GroupsOf(items, starts + [|items|], nodes + [[]]) == GroupsOf(items, starts, nodes) + [[]]
  {
    var starts2, nodes2 := starts + [|items|], nodes + [[]];
    AppendedEmptyTiles(items, starts, nodes);
    var before, after := GroupsOf(items, starts, nodes), GroupsOf(items, starts2, nodes2);
    forall h | 0 <= h < |starts| ensures after[h] == before[h] {
      GroupAt(items, starts, nodes, h);
      GroupAt(items, starts2, nodes2, h);
      assert starts2[h] == starts[h] && nodes2[h] == nodes[h];
    }
    GroupAt(items, starts2, nodes2, |starts|);
  }

  /** Appending an empty group at the end of the items keeps the tiling. */
  lemma AppendedEmptyTiles(items: seq<MenuItem>, starts: seq<int>, nodes: seq<seq<int>>)
    requires Tiles(items, starts, nodes)
    ensures Tiles(items, starts + [|items|], nodes + [[]])
  {
    var starts2, nodes2 := starts + [|items|], nodes + [[]];
    forall g, j | 0 <= g < |nodes2| && 0 <= j < |nodes2[g]| ensures nodes2[g][j] == starts2[g] + j {
      assert g < |nodes| && nodes2[g] == nodes[g] && starts2[g] == starts[g];
    }
  }

  /**
   * The loop of `insert`: every group after `g` starts one slot later and
   * its nodes are pointed at their new slots.
   */
  method ShiftLater(starts: seq<int>, nodes: seq<seq<int>>, g: nat) returns (ss: seq<int>, ns: seq<seq<int>>)
    requires g < |starts| == |nodes|
    ensures |ss| == |starts| && |ns| == |nodes|
    ensures forall h :: 0 <= h < |ss| ==> ss[h] == if h <= g then starts[h] else starts[h] + 1
    ensures forall h :: 0 <= h < |ns| ==> |ns[h]| == |nodes[h]|
    ensures forall h :: 0 <= h <= g ==> ns[h] == nodes[h]
    ensures forall h, j :: g < h < |ns| && 0 <= j < |ns[h]| ==> ns[h][j] == ss[h] + j
  {
    ss, ns := starts, nodes;
    var i := g + 1;
    while i < |ss|
      invariant g + 1 <= i <= |ss| == |starts| == |ns|
      invariant forall h :: 0 <= h < |ss| ==> ss[h] == if g < h < i then starts[h] + 1 else starts[h]
      invariant forall h :: 0 <= h < |ns| ==> |ns[h]| == |nodes[h]|
      invariant forall h :: 0 <= h < |ns| && (h <= g || i <= h) ==> ns[h] == nodes[h]
      invariant forall h, j :: g < h < i && 0 <= j < |ns[h]| ==> ns[h][j] == ss[h] + j
    {
      ss := ss[i := ss[i] + 1];
      var rebound := Rebind(ns[i], ss[i]);
      ns := ns[i := rebound];
      i := i + 1;
    }
  }

  /** `count` pointers, the first at `start` and each next one at the next slot. */
  method Rebind(ptrs: seq<int>, start: int) returns (r: seq<int>)
    ensures |r| == |ptrs|
    ensures forall j :: 0 <= j < |r| ==> r[j] == start + j
  {
    r := ptrs;
    var j := 0;
    while j < |r|
      invariant 0 <= j <= |r| == |ptrs|
      invariant forall k :: 0 <= k < j ==> r[k] == start + k
    {
      r := r[j := start + j];
      j := j + 1;
    }
  }

  // ---------------------------------------------------------------- Menu

  /** `Menu`: the flat items with, for each group, its start and its nodes. */
  class Menu {
    var items: seq<MenuItem>
    var starts: seq<int>
    var nodes: seq<seq<int>>

    predicate Valid()
      reads this
    {
      Tiles(items, starts, nodes) && SeparatorLed(Groups())
    }

    function Groups(): (r: seq<seq<MenuItem>>)
      reads this
      requires Tiles(items, starts, nodes)
      ensures |r| == |starts|
    {
      GroupsOf(items, starts, nodes)
    }

    /** An empty menu: no items and no groups. */
    constructor ()
      ensures items == [] && starts == [] && nodes == []
      ensures Valid()
    {
      items := [];
      starts := [];
      nodes := [];
    }

    /**
     * `insert`: puts `item` just after the last item of group `g`, gives
     * group `g` a node pointing at it, moves every later group one slot on
     * and points its nodes at their new slots.  Returns the new node's slot.
     */
    method Insert(g: nat, item: MenuItem) returns (node: int)
      requires Tiles(items, starts, nodes) && g < |starts|
      modifies this
      ensures Tiles(items, starts, nodes)
      ensures |starts| == old(|starts|)
      ensures node == old(starts[g] + |nodes[g]|) && 0 <= node < |items|
      ensures items == old(items[..starts[g] + |nodes[g]|]) + [item] + old(items[starts[g] + |nodes[g]|..])
      ensures forall h :: 0 <= h < |starts| ==> starts[h] == if h <= g then old(starts[h]) else old(starts[h]) + 1
      ensures Groups() == old(Groups())[g := old(Groups())[g] + [item]]
    {
      ghost var oldItems, oldStarts, oldNodes := items, starts, nodes;
      node := starts[g] + |nodes[g]|;
      items := items[..node] + [item] + items[node..];
      starts, nodes := ShiftLater(starts, nodes[g := nodes[g] + [node]], g);
      InsertedTiles(oldItems, oldStarts, oldNodes, g, item, items, starts, nodes);
      InsertedGroups(oldItems, oldStarts, oldNodes, g, item, items, starts, nodes);
    }

    /** `MenuGroup.AddChild` on group `g`: the item is appended to that group. */
    method AddChild(g: nat, item: MenuItem) returns (node: int)
      requires Valid() && g < |starts|
      modifies this
      ensures Valid()
      ensures |starts| == old(|starts|)
      ensures node == old(starts[g] + |nodes[g]|) && 0 <= node < |items| && items[node] == item
      ensures Groups() == old(Groups())[g := old(Groups())[g] + [item]]
    {
      ghost var before := Groups();
      node := Insert(g, item);
      assert forall h :: 0 <= h < |before| && h != g ==> Groups()[h] == before[h];
      assert |before[g]| > 0 ==> Groups()[g][0] == before[g][0];
    }

    /**
     * `AddGroup`: a new empty group at the end; when it is not the first,
     * it is given a separator as its first item.
     */
    method AddGroup() returns (g: nat)
      requires Valid()
      modifies this
      ensures Valid()
      ensures g == old(|starts|) && |starts| == g + 1
      ensures starts[g] == old(|items|)
      ensures Groups() == old(Groups()) + [if g == 0 then [] else [SeparatorItem]]
    {
      AppendedEmptyGroup(items, starts, nodes);
      g := |starts|;
      starts := starts + [|items|];
      nodes := nodes + [[]];
      if |starts| > 1 {
        var _ := Insert(g, SeparatorItem);
      }
    }

    /** `Children`: the flat list, which is the groups laid end to end. */
    method Children() returns (r: seq<MenuItem>)
      requires Valid()
      ensures r == Flatten(Groups())
    {
      GroupsTileItems(items, starts, nodes);
      r := items;
    }
  }

  /** Group starts never go down. */
  lemma {:induction false} AscendingStarts(items: seq<MenuItem>, starts: seq<int>, nodes: seq<seq<int>>, a: nat, b: nat)
    requires Tiles(items, starts, nodes) && a < b < |starts|
    ensures starts[a] + |nodes[a]| <= starts[b]
    decreases b - a
  {
    if a + 1 < b {
      AscendingStarts(items, starts, nodes, a + 1, b);
    }
  }

  /**
   * The first half of `RootMenu`: the three groups, the settings group
   * given its "Edit RuleSet" item.
   */
  method RootGroups(m: Menu) returns (server: nat, proxies: nat, settings: nat)
    requires m.Valid() && m.starts == []
    modifies m
    ensures m.Valid()
    ensures (server, proxies, settings) == (0, 1, 2)
    ensures m.Groups() == [[], [SeparatorItem], [SeparatorItem, EditRuleSet]]
  {
    server := m.AddGroup();
    assert m.Groups() == [[]];
    proxies := m.AddGroup();
    assert m.Groups() == [[], [SeparatorItem]];
    settings := m.AddGroup();
    assert m.Groups() == [[], [SeparatorItem], [SeparatorItem]];
    var _ := m.AddChild(settings, EditRuleSet);
    assert [SeparatorItem] + [EditRuleSet] == [SeparatorItem, EditRuleSet];
  }

  /**
   * `RootMenu`: a server group, a proxies group and a settings group, each
   * given its heading.  Returns the three groups and the slot the settings
   * node points at once the other headings are in.
   */
  method RootMenu(m: Menu) returns (server: nat, proxies: nat, settings: nat, settingsNode: int)
    requires m.Valid() && m.starts == []
    modifies m
    ensures m.Valid()
    ensures (server, proxies, settings) == (0, 1, 2)
    ensures m.Groups() == [[ServerHeading], [SeparatorItem, ProxiesHeading], [SeparatorItem, EditRuleSet]]
    ensures settingsNode == m.nodes[2][1] && m.items[settingsNode] == EditRuleSet
  {
    server, proxies, settings := RootGroups(m);
    var _ := m.AddChild(server, ServerHeading);
    var _ := m.AddChild(proxies, ProxiesHeading);
    assert [SeparatorItem] + [ProxiesHeading] == [SeparatorItem, ProxiesHeading];
    settingsNode := m.nodes[2][1];
    assert m.items[settingsNode] == m.Groups()[2][1];
  }

  const ServerHeading := MenuItem(Regular, "Server Address", Medium)
  const ProxiesHeading := MenuItem(Regular, "Proxies", Medium)
  const EditRuleSet := MenuItem(Regular, "Edit RuleSet", Normal)

  // ---------------------------------------------------------------- MenuNode

  /** `MenuNode`: a node with its own child list and the child nodes pointing into it. */
  class MenuNode {
    /** Whether the node has an item of its own (`MenuItem != nil`). */
    const hasItem: bool
    /** Whether that item's `Children` callback is set. */
    var wired: bool
    var children: seq<MenuItem>
    /** Each child node's item pointer, as an index into `children`. */
    var childNodes: seq<int>

    constructor (hasItem: bool)
      ensures this.hasItem == hasItem && !wired && children == [] && childNodes == []
    {
      this.hasItem := hasItem;
      wired := false;
      children := [];
      childNodes := [];
    }

    /**
     * `AddChild`: appends the item, gives it a node, points every child node
     * at its own slot of the (possibly moved) child list, and wires the
     * node's own item to its children.
     */
    method AddChild(item: MenuItem) returns (child: int)
      requires |childNodes| == |children|
      modifies this
      ensures children == old(children) + [item]
      ensures |childNodes| == |children|
      ensures forall i :: 0 <= i < |childNodes| ==> childNodes[i] == i
      ensures child == |children| - 1 && children[child] == item
      ensures wired == (old(wired) || hasItem)
    {
      children := children + [item];
      childNodes := childNodes + [-1];
      childNodes := Rebind(childNodes, 0);
      if hasItem {
        wired := true;
      }
      child := |children| - 1;
    }
  }

  // ---------------------------------------------------------------- status

  /** `dialer.ConnectionState`: the four named states, or any other value. */
  datatype ConnectionState = Offline | Connecting | Failed | Online | Other(code: int)

  /** The click handler `action` gives: none, or closing the dialer. */
  datatype Handler = NoHandler | CloseDialer

  /** `icon`: a coloured circle per named state, nothing otherwise. */
  function Icon(s: ConnectionState): (r: string)
    ensures r == "" <==> s.Other?
  {
    match s
    case Offline => "\U{26AA}"
    case Online => "\U{1F7E2}"
    case Failed => "\U{1F534}"
    case Connecting => "\U{1F7E1}"
    case Other(_) => ""
  }

  /** The four named states have four different icons. */
  lemma IconsDistinct(s: ConnectionState, t: ConnectionState)
    requires !s.Other? && !t.Other? && s != t
    ensures Icon(s) != Icon(t)
  {
  }

  /** `action`: the text of the action item and its click handler. */
  function Action(s: ConnectionState): (r: (string, Handler))
    ensures r.1 == CloseDialer <==> s == Online
    ensures r.0 == "Connect" <==> s == Offline || s == Failed
    ensures r.0 == "Disconnect" <==> s == Online
    ensures r.0 == "Connecting..." <==> s == Connecting
    ensures r.0 == "" <==> s.Other?
  {
    match s
    case Offline => ("Connect", NoHandler)
    case Failed => ("Connect", NoHandler)
    case Online => ("Disconnect", CloseDialer)
    case Connecting => ("Connecting...", NoHandler)
    case Other(_) => ("", NoHandler)
  }
}
