/**
 * `Zone` (base/src/pkg/trie/zone.go): wildcard rules only, stored under
 * their canonical zone name, with the reversed-label tree beside them.  The
 * Go zero value has nil tables; the first `Insert` creates them.
 */
module ZoneTrie {
  import opened Wrappers
  import opened Text
  import opened LabelTrie

  /** The answer of `Match(host)` for a zone with tree `root` and rules `values`. */
  function ZoneMatched<V>(root: Nodes, values: map<string, V>, host: string): Option<V>
    requires Wellformed(root, values)
  {
    Expected(root, values, Canonical(host))
  }

  class Zone<V> {
    var root: Nodes
    var values: map<string, V>
    /** Whether the tables exist yet (`values != nil` in Go). */
    var ready: bool

    ghost predicate Valid()
      reads this
    {
      Wellformed(root, values) && (!ready ==> values == map[] && root == map[])
    }

    /** The zero value: no tables yet. */
    constructor ()
      ensures Valid() && !ready
    {
      root := map[];
      values := map[];
      ready := false;
    }

    method Insert(zone: string, value: V)
      requires Valid()
      modifies this
      ensures Valid() && ready
      ensures values == old(values)[Canonical(zone) := value]
      ensures root == Grow(old(root), PathOf(Canonical(zone)), 0)
    {
      var z := Canonical(zone);
      var tree, table := root, values;
      if !ready {
        tree, table := map[], map[];
      }
      GrowKeepsWellformed(tree, table, z, value);
      var grown := GrowTree(tree, z);
      root, values, ready := grown, table[z := value], true;
    }

    method Match(host: string) returns (r: Option<V>)
      requires Valid()
      ensures r == ZoneMatched(root, values, host)
    {
      var h := Canonical(host);
      r := Lookup(root, values, h);
    }
  }

  // ---------------------------------------------------------------- properties

  /** A zone nothing was inserted into matches nothing. */
  lemma EmptyZoneMatchesNothing<V>(root: Nodes, values: map<string, V>, host: string)
    requires root == map[] && values == map[]
    ensures Wellformed(root, values)
    ensures ZoneMatched(root, values, host) == None
  {
    BacktrackFinds(values, Split(Canonical(host), '.'), 1);
  }

  /** A hit is the value stored for some dot-suffix of the canonical host. */
  lemma ZoneHitIsSuffix<V>(root: Nodes, values: map<string, V>, host: string)
    requires Wellformed(root, values)
    requires ZoneMatched(root, values, host).Some?
    ensures var labels := Split(Canonical(host), '.');
      exists k :: 0 <= k < |labels| && Suffix(labels, k) in values
        && ZoneMatched(root, values, host).value == values[Suffix(labels, k)]
  {
    ExpectedIsSuffixValue(root, values, Canonical(host));
  }

  /** A miss means that no proper dot-suffix of the canonical host is a stored zone. */
  lemma ZoneMissHasNoSuffix<V>(root: Nodes, values: map<string, V>, host: string)
    requires Wellformed(root, values)
    requires ZoneMatched(root, values, host).None?
    ensures var labels := Split(Canonical(host), '.');
      forall k :: 1 <= k < |labels| ==> Suffix(labels, k) !in values
  {
    BacktrackFinds(values, Split(Canonical(host), '.'), 1);
  }

  /** A stored zone is found for each of its one-label subdomains that is no zone itself. */
  lemma ZoneCoversSubdomain<V>(root: Nodes, values: map<string, V>, zone: string, first: string)
    requires Wellformed(root, values)
    requires zone in values && '.' !in first
    requires var sub := first + "." + zone; Canonical(sub) == sub && sub !in values
    ensures ZoneMatched(root, values, first + "." + zone) == Some(values[zone])
  {
    var sub := first + "." + zone;
    SplitAfterLabel(first, zone);
    var labels := Split(sub, '.');
    JoinSplit(zone, '.');
    assert labels[1..] == Split(zone, '.');
    assert Suffix(labels, 1) == zone;
  }
}
