/**
 * The reversed-label tree that `DNS` (pkg/trie/dns.go) and `Zone`
 * (base/src/pkg/trie/zone.go) keep beside their wildcard value table.
 *
 * Go nests `node map[string]node` maps, top-level label first, and a nil
 * entry ends a zone.  Here the tree is flattened: every present entry is
 * keyed by its path from the root, and maps to `true` when the Go entry is
 * nil (a leaf) and to `false` when it is an inner node.  Both Go types run
 * the same insertion and lookup loops over this tree; they are the two
 * methods of this module.
 */
module LabelTrie {
  import opened Wrappers
  import opened Text

  /** `canonocalizeHost`: surrounding space trimmed, letters lowered. */
  function Canonical(host: string): string {
    ToLower(TrimSpace(host))
  }

  /** Canonicalising twice changes nothing more. */
  lemma CanonicalIsFixed(host: string)
    ensures Canonical(Canonical(host)) == Canonical(host)
  {
    var t := TrimSpace(host);
    TrimSpaceLower(t);
    TrimSpaceIdempotent(host);
    ToLowerIdempotent(t);
  }

  /** Canonical names ignore the case of their letters. */
  lemma CanonicalIgnoresCase(host: string)
    ensures Canonical(ToLower(host)) == Canonical(host)
  {
    TrimSpaceLower(host);
    ToLowerIdempotent(TrimSpace(host));
  }

  /** A label sequence reversed: the path from the root, top-level label first. */
  function Rev(s: seq<string>): (r: seq<string>)
    ensures |r| == |s|
    ensures forall i :: 0 <= i < |s| ==> r[i] == s[|s| - 1 - i]
  {
    if |s| == 0 then [] else Rev(s[1..]) + [s[0]]
  }

  lemma RevRev(s: seq<string>)
    ensures Rev(Rev(s)) == s
  {
  }

  /** The tree path of a name: its dot-separated labels, last label first. */
  function PathOf(name: string): (p: seq<string>)
    ensures |p| >= 1
    ensures KeyOf(p) == name
  {
    RevRev(Split(name, '.'));
    JoinSplit(name, '.');
    Rev(Split(name, '.'))
  }

  /** The name a tree path spells. */
  function KeyOf(p: seq<string>): string {
    Join(Rev(p), ".")
  }

  /** The path of the label suffix `labels[k..]`: a prefix of the path of `labels`. */
  function SuffixPath(labels: seq<string>, k: nat): seq<string>
    requires k <= |labels|
  {
    Rev(labels[k..])
  }

  /** The name spelled by the labels from `k` on: a dot-suffix of the whole name. */
  function Suffix(labels: seq<string>, k: nat): string
    requires k <= |labels|
  {
    Join(labels[k..], ".")
  }

  type Nodes = map<seq<string>, bool>

  /** Membership in the value table, as the term the link invariant hangs on. */
  predicate Stored<V>(values: map<string, V>, z: string) {
    z in values
  }

  /** Membership in the tree, as the term the tree invariants hang on. */
  predicate InTree(nodes: Nodes, p: seq<string>) {
    p in nodes
  }

  predicate IsLeaf(nodes: Nodes, p: seq<string>) {
    p in nodes && nodes[p]
  }

  predicate IsInner(nodes: Nodes, p: seq<string>) {
    p in nodes && !nodes[p]
  }

  /** Every entry hangs below the root and below an inner node. */
  ghost predicate Shaped(nodes: Nodes) {
    (forall p | InTree(nodes, p) :: |p| >= 1)
    && (forall p | InTree(nodes, p) && |p| >= 2 :: IsInner(nodes, p[..|p| - 1]))
  }

  /** Every leaf ends a stored zone, and every stored zone has its path in the tree. */
  ghost predicate Linked<V>(nodes: Nodes, values: map<string, V>) {
    (forall p | InTree(nodes, p) && nodes[p] :: KeyOf(p) in values)
    && (forall z | Stored(values, z) :: PathOf(z) in nodes)
  }

  ghost predicate Wellformed<V>(nodes: Nodes, values: map<string, V>) {
    Shaped(nodes) && Linked(nodes, values)
  }

  /** Every proper non-empty prefix of a present path is an inner node. */
  lemma {:induction false} Ancestor(nodes: Nodes, q: seq<string>, e: nat)
    requires Shaped(nodes) && q in nodes && 1 <= e < |q|
    ensures IsInner(nodes, q[..e])
    decreases |q| - e
  {
    var parent := q[..|q| - 1];
    assert InTree(nodes, q);
    if e < |parent| {
      Ancestor(nodes, parent, e);
      assert parent[..e] == q[..e];
    } else {
      assert parent == q[..e];
    }
  }

  // ---------------------------------------------------------------- insertion

  /** The tree with the path `p[..m]` set for `k <= m < e`: a leaf at full depth, inner above it. */
  function HangTo(nodes: Nodes, p: seq<string>, k: nat, e: nat): Nodes
    requires e <= |p| + 1
    decreases e
  {
    if e <= k then nodes else HangTo(nodes, p, k, e - 1)[p[..e - 1] := e - 1 == |p|]
  }

  /**
   * The tree after a zone with path `p` is added: walk down while the next
   * entry is an inner node; at the first missing or leaf entry, hang the
   * rest of the path below it, ending in a leaf.  A path that is already
   * all inner nodes leaves the tree as it is.
   */
  function Grow(nodes: Nodes, p: seq<string>, d: nat): Nodes
    requires d <= |p|
    decreases |p| - d
  {
    if d == |p| then nodes
    else if IsInner(nodes, p[..d + 1]) then Grow(nodes, p, d + 1)
    else HangTo(nodes, p, d + 1, |p| + 1)
  }

  lemma {:induction false} HangToFacts(nodes: Nodes, p: seq<string>, k: nat, e: nat, q: seq<string>)
    requires e <= |p| + 1
    ensures q in HangTo(nodes, p, k, e) <==> q in nodes || (k <= |q| < e && q == p[..|q|])
    ensures k <= |q| < e && q == p[..|q|] ==> HangTo(nodes, p, k, e)[q] == (|q| == |p|)
    ensures !(k <= |q| < e && q == p[..|q|]) && q in nodes ==> HangTo(nodes, p, k, e)[q] == nodes[q]
    decreases e
  {
    if e > k {
      HangToFacts(nodes, p, k, e - 1, q);
    }
  }

  /** The depth at which `Grow` stops walking. */
  function StopDepth(nodes: Nodes, p: seq<string>, d: nat): (s: nat)
    requires d <= |p|
    ensures d <= s <= |p|
    ensures s < |p| ==> !IsInner(nodes, p[..s + 1])
    ensures forall e :: d < e <= s ==> IsInner(nodes, p[..e])
    decreases |p| - d
  {
    if d == |p| then d
    else if IsInner(nodes, p[..d + 1]) then StopDepth(nodes, p, d + 1)
    else d
  }

  lemma {:induction false} GrowAtStop(nodes: Nodes, p: seq<string>, d: nat)
    requires d <= |p|
    ensures Grow(nodes, p, d) ==
      (var s := StopDepth(nodes, p, d); if s == |p| then nodes else HangTo(nodes, p, s + 1, |p| + 1))
    decreases |p| - d
  {
    if d < |p| && IsInner(nodes, p[..d + 1]) {
      GrowAtStop(nodes, p, d + 1);
    }
  }

  /** No old entry lies strictly below the depth where `Grow` stopped. */
  lemma NoOldBelowStop(nodes: Nodes, p: seq<string>, s: nat, q: seq<string>)
    requires Shaped(nodes) && s < |p| && !IsInner(nodes, p[..s + 1])
    requires q in nodes && s + 1 <= |q| <= |p| && q == p[..|q|]
    ensures |q| == s + 1
  {
    if |q| > s + 1 {
      PrefixOfPrefix(q, p, s + 1);
      Ancestor(nodes, q, s + 1);
      assert false;
    }
  }

  lemma PrefixOfPrefix(q: seq<string>, p: seq<string>, e: nat)
    requires |q| <= |p| && q == p[..|q|] && e <= |q|
    ensures q[..e] == p[..e]
  {
  }

  /** Every entry of the grown tree below the root hangs below an inner node. */
  lemma HangParent(nodes: Nodes, p: seq<string>, s: nat, q: seq<string>)
    requires Shaped(nodes) && s == StopDepth(nodes, p, 0) && s < |p|
    requires q in HangTo(nodes, p, s + 1, |p| + 1) && |q| >= 2
    ensures IsInner(HangTo(nodes, p, s + 1, |p| + 1), q[..|q| - 1])
  {
    var parent := q[..|q| - 1];
    HangToFacts(nodes, p, s + 1, |p| + 1, q);
    HangToFacts(nodes, p, s + 1, |p| + 1, parent);
    if s + 1 <= |q| <= |p| && q == p[..|q|] {
      assert parent == p[..|q| - 1];
    } else {
      assert InTree(nodes, q);
      if s + 1 <= |parent| <= |p| && parent == p[..|parent|] {
        NoOldBelowStop(nodes, p, s, parent);
      }
    }
  }

  /** Hanging the rest of a path keeps the tree shaped. */
  lemma HangShaped(nodes: Nodes, p: seq<string>, s: nat)
    requires Shaped(nodes) && s == StopDepth(nodes, p, 0) && s < |p|
    ensures Shaped(HangTo(nodes, p, s + 1, |p| + 1))
  {
    var n' := HangTo(nodes, p, s + 1, |p| + 1);
    forall q | InTree(n', q)
      ensures |q| >= 1
      ensures |q| >= 2 ==> IsInner(n', q[..|q| - 1])
    {
      HangToFacts(nodes, p, s + 1, |p| + 1, q);
      if q in nodes {
        assert InTree(nodes, q);
      }
      if |q| >= 2 {
        HangParent(nodes, p, s, q);
      }
    }
  }

  /** Every leaf of the grown tree ends a zone of the updated value table. */
  lemma HangLeaves<V>(nodes: Nodes, values: map<string, V>, p: seq<string>, zone: string, v: V, s: nat)
    requires Linked(nodes, values)
    requires KeyOf(p) == zone && s < |p|
    ensures forall q | InTree(HangTo(nodes, p, s + 1, |p| + 1), q) && HangTo(nodes, p, s + 1, |p| + 1)[q] ::
      KeyOf(q) in values[zone := v]
  {
    var n' := HangTo(nodes, p, s + 1, |p| + 1);
    forall q | InTree(n', q) && n'[q]
      ensures KeyOf(q) in values[zone := v]
    {
      HangToFacts(nodes, p, s + 1, |p| + 1, q);
      if s + 1 <= |q| <= |p| && q == p[..|q|] {
        assert p[..|p|] == p;
      } else {
        assert InTree(nodes, q);
      }
    }
  }

  /** Every zone of the updated value table has its path in the grown tree. */
  lemma HangStored<V>(nodes: Nodes, values: map<string, V>, p: seq<string>, zone: string, v: V, s: nat)
    requires Linked(nodes, values)
    requires p == PathOf(zone) && s < |p|
    ensures forall z | Stored(values[zone := v], z) :: PathOf(z) in HangTo(nodes, p, s + 1, |p| + 1)
  {
    forall z | Stored(values[zone := v], z)
      ensures PathOf(z) in HangTo(nodes, p, s + 1, |p| + 1)
    {
      assert z != zone ==> Stored(values, z);
      HangToFacts(nodes, p, s + 1, |p| + 1, PathOf(z));
      if z == zone {
        assert p[..|p|] == p;
      }
    }
  }

  /** Hanging the rest of a zone's path keeps the tree well formed and linked. */
  lemma HangKeepsWellformed<V>(nodes: Nodes, values: map<string, V>, zone: string, v: V, s: nat)
    requires Wellformed(nodes, values)
    requires s == StopDepth(nodes, PathOf(zone), 0) && s < |PathOf(zone)|
    ensures Wellformed(HangTo(nodes, PathOf(zone), s + 1, |PathOf(zone)| + 1), values[zone := v])
  {
    var p := PathOf(zone);
    HangShaped(nodes, p, s);
    HangLeaves(nodes, values, p, zone, v, s);
    HangStored(nodes, values, p, zone, v, s);
  }

  /** A zone whose path is all inner nodes needs no new entry. */
  lemma WalkedKeepsWellformed<V>(nodes: Nodes, values: map<string, V>, zone: string, v: V)
    requires Wellformed(nodes, values)
    requires StopDepth(nodes, PathOf(zone), 0) == |PathOf(zone)|
    ensures Wellformed(nodes, values[zone := v])
  {
    var p := PathOf(zone);
    assert p[..|p|] == p;
    assert IsInner(nodes, p);
    var values' := values[zone := v];
    assert forall q | InTree(nodes, q) && nodes[q] :: KeyOf(q) in values';
    forall z | Stored(values', z)
      ensures PathOf(z) in nodes
    {
      assert z != zone ==> Stored(values, z);
    }
  }

  /** Adding a zone keeps the tree well formed and linked to the value table that now holds it. */
  lemma GrowKeepsWellformed<V>(nodes: Nodes, values: map<string, V>, zone: string, v: V)
    requires Wellformed(nodes, values)
    ensures Wellformed(Grow(nodes, PathOf(zone), 0), values[zone := v])
  {
    var p := PathOf(zone);
    var s := StopDepth(nodes, p, 0);
    GrowAtStop(nodes, p, 0);
    if s == |p| {
      assert Grow(nodes, p, 0) == nodes;
      WalkedKeepsWellformed(nodes, values, zone, v);
    } else {
      assert Grow(nodes, p, 0) == HangTo(nodes, p, s + 1, |p| + 1);
      HangKeepsWellformed(nodes, values, zone, v, s);
    }
  }

  /**
   * The insertion loop of `Zone.Insert` and `DNS.insertWildcard`: walk the
   * path while the entries are inner nodes, then build the rest of the
   * path in one go.
   */
  method GrowTree(nodes: Nodes, zone: string) returns (r: Nodes)
    ensures r == Grow(nodes, PathOf(zone), 0)
  {
    var p := PathOf(zone);
    var d := 0;
    while d < |p|
      invariant d <= |p|
      invariant Grow(nodes, p, 0) == Grow(nodes, p, d)
    {
      if !IsInner(nodes, p[..d + 1]) {
        // the chain for the remaining labels; its last entry is the leaf
        r := nodes;
        var m := d + 1;
        while m <= |p|
          invariant d + 1 <= m <= |p| + 1
          invariant r == HangTo(nodes, p, d + 1, m)
        {
          r := r[p[..m] := m == |p|];
          m := m + 1;
        }
        return;
      }
      d := d + 1;
    }
    r := nodes;
  }

  // ------------------------------------------------------------------- lookup

  /** The first label suffix `labels[k..]`, `k` counting up from the given start, that is a stored zone. */
  function Backtrack<V>(values: map<string, V>, labels: seq<string>, k: nat): Option<V>
    decreases |labels| - k
  {
    if k >= |labels| then None
    else if Suffix(labels, k) in values then Some(values[Suffix(labels, k)])
    else Backtrack(values, labels, k + 1)
  }

  /**
   * Backtracking answers with the value of the first stored suffix from `k`
   * on, and answers nothing only when no suffix from `k` on is stored.
   */
  lemma {:induction false} BacktrackFinds<V>(values: map<string, V>, labels: seq<string>, k: nat)
    ensures Backtrack(values, labels, k).Some? ==>
      exists i :: k <= i < |labels| && Suffix(labels, i) in values
        && Backtrack(values, labels, k).value == values[Suffix(labels, i)]
        && forall i' :: k <= i' < i ==> Suffix(labels, i') !in values
    ensures Backtrack(values, labels, k).None? ==>
      forall i :: k <= i < |labels| ==> Suffix(labels, i) !in values
    decreases |labels| - k
  {
    if k < |labels| && Suffix(labels, k) !in values {
      BacktrackFinds(values, labels, k + 1);
      if Backtrack(values, labels, k).Some? {
        var i :| k + 1 <= i < |labels| && Suffix(labels, i) in values
          && Backtrack(values, labels, k).value == values[Suffix(labels, i)]
          && forall i' :: k + 1 <= i' < i ==> Suffix(labels, i') !in values;
        assert forall i' :: k <= i' < i ==> Suffix(labels, i') !in values;
      }
    }
  }

  /**
   * What a lookup of `host` returns: when the host's own path ends in a leaf,
   * the value stored for the host itself; otherwise the value of the longest
   * proper dot-suffix of the host that is a stored zone, if any.
   */
  function Expected<V>(nodes: Nodes, values: map<string, V>, host: string): Option<V>
    requires Wellformed(nodes, values)
  {
    if IsLeaf(nodes, PathOf(host)) then Some(values[KeyOf(PathOf(host))])
    else Backtrack(values, Split(host, '.'), 1)
  }

  /** Go's byte offset of `labels[k]` inside the joined host. */
  function Offset(labels: seq<string>, k: nat): nat
    requires k <= |labels|
  {
    if k == 0 then 0 else Offset(labels, k - 1) + |labels[k - 1]| + 1
  }

  lemma {:induction false} SuffixAt(labels: seq<string>, k: nat)
    requires k < |labels|
    ensures Offset(labels, k) <= |Join(labels, ".")|
    ensures Join(labels, ".")[Offset(labels, k)..] == Suffix(labels, k)
  {
    if k == 0 {
      assert labels[0..] == labels;
    } else {
      SuffixAt(labels, k - 1);
      var tail := labels[k - 1..];
      assert tail[1..] == labels[k..];
      assert Join(tail, ".") == labels[k - 1] + "." + Suffix(labels, k);
      var h := Join(labels, ".");
      var o := Offset(labels, k - 1);
      assert h[o..][|labels[k - 1]| + 1..] == h[o + |labels[k - 1]| + 1..];
    }
  }

  lemma SuffixPathPrefix(labels: seq<string>, k: nat, i: nat)
    requires k <= i <= |labels|
    ensures SuffixPath(labels, k)[..|labels| - i] == SuffixPath(labels, i)
  {
  }

  /** The path of a stored label suffix is the suffix path. */
  lemma PathOfSuffix(host: string, k: nat)
    requires k < |Split(host, '.')|
    ensures PathOf(Suffix(Split(host, '.'), k)) == SuffixPath(Split(host, '.'), k)
  {
    var labels := Split(host, '.');
    SplitPiecesHaveNoSeparator(host, '.');
    SplitJoin(labels[k..], '.');
  }

  /** A label suffix whose path is missing from the tree is not a stored zone. */
  lemma AbsentSuffix<V>(nodes: Nodes, values: map<string, V>, host: string, k: nat)
    requires Wellformed(nodes, values)
    requires k < |Split(host, '.')| && SuffixPath(Split(host, '.'), k) !in nodes
    ensures Suffix(Split(host, '.'), k) !in values
  {
    PathOfSuffix(host, k);
    assert !Stored(values, Suffix(Split(host, '.'), k));
  }

  /** Below a missing entry or a leaf, no longer suffix of the host is a stored zone. */
  lemma NothingBelow<V>(nodes: Nodes, values: map<string, V>, host: string, i: nat)
    requires Wellformed(nodes, values)
    requires i < |Split(host, '.')|
    requires !IsInner(nodes, SuffixPath(Split(host, '.'), i))
    ensures forall k :: 0 <= k < i ==> SuffixPath(Split(host, '.'), k) !in nodes
    ensures forall k :: 0 <= k < i ==> Suffix(Split(host, '.'), k) !in values
  {
    var labels := Split(host, '.');
    forall k | 0 <= k < i
      ensures SuffixPath(labels, k) !in nodes
      ensures Suffix(labels, k) !in values
    {
      var q := SuffixPath(labels, k);
      if q in nodes {
        Ancestor(nodes, q, |labels| - i);
        SuffixPathPrefix(labels, k, i);
      }
      AbsentSuffix(nodes, values, host, k);
    }
  }

  lemma {:induction false} BacktrackSkip<V>(values: map<string, V>, labels: seq<string>, a: nat, b: nat)
    requires a <= b
    requires forall k :: a <= k < b && k < |labels| ==> Suffix(labels, k) !in values
    ensures Backtrack(values, labels, a) == Backtrack(values, labels, b)
    decreases b - a
  {
    if a < b && a < |labels| {
      BacktrackSkip(values, labels, a + 1, b);
    } else if a < b {
      assert Backtrack(values, labels, a) == None;
      assert Backtrack(values, labels, b) == None;
    }
  }

  /** A leaf met on the walk is the answer. */
  lemma LeafAnswers<V>(nodes: Nodes, values: map<string, V>, host: string, i: nat)
    requires Wellformed(nodes, values)
    requires i < |Split(host, '.')| && IsLeaf(nodes, SuffixPath(Split(host, '.'), i))
    ensures Suffix(Split(host, '.'), i) in values
    ensures Expected(nodes, values, host) == Some(values[Suffix(Split(host, '.'), i)])
  {
    var labels := Split(host, '.');
    PathOfSuffix(host, i);
    assert InTree(nodes, SuffixPath(labels, i));
    assert KeyOf(PathOf(Suffix(labels, i))) == Suffix(labels, i);
    WholePath(host);
    if i > 0 {
      NothingBelow(nodes, values, host, i);
      BacktrackSkip(values, labels, 1, i);
      assert !IsLeaf(nodes, PathOf(host));
    }
  }

  /** A missing entry on the walk leaves the suffixes shorter than it to backtrack over. */
  lemma MissBacktracks<V>(nodes: Nodes, values: map<string, V>, host: string, j: nat)
    requires Wellformed(nodes, values)
    requires j < |Split(host, '.')| && SuffixPath(Split(host, '.'), j) !in nodes
    ensures Expected(nodes, values, host) == Backtrack(values, Split(host, '.'), j + 1)
  {
    MissedWholeNotLeaf(nodes, values, host, j);
    NotLeafBacktracks(nodes, values, host);
    MissedSuffixesAbsent(nodes, values, host, j);
    BacktrackSkip(values, Split(host, '.'), 1, j + 1);
  }

  /** Below a missing entry the whole host is no leaf. */
  lemma MissedWholeNotLeaf<V>(nodes: Nodes, values: map<string, V>, host: string, j: nat)
    requires Wellformed(nodes, values)
    requires j < |Split(host, '.')| && SuffixPath(Split(host, '.'), j) !in nodes
    ensures !IsLeaf(nodes, PathOf(host))
  {
    WholePath(host);
    if j > 0 {
      NothingBelow(nodes, values, host, j);
    }
  }

  /** A host whose own path is no leaf is answered by backtracking over all proper suffixes. */
  lemma NotLeafBacktracks<V>(nodes: Nodes, values: map<string, V>, host: string)
    requires Wellformed(nodes, values)
    requires !IsLeaf(nodes, PathOf(host))
    ensures Expected(nodes, values, host) == Backtrack(values, Split(host, '.'), 1)
  {
  }

  /** The suffixes whose paths lie at or below a missing entry are not stored. */
  lemma MissedSuffixesAbsent<V>(nodes: Nodes, values: map<string, V>, host: string, j: nat)
    requires Wellformed(nodes, values)
    requires j < |Split(host, '.')| && SuffixPath(Split(host, '.'), j) !in nodes
    ensures forall k :: 0 <= k <= j ==> Suffix(Split(host, '.'), k) !in values
  {
    NothingBelow(nodes, values, host, j);
    AbsentSuffix(nodes, values, host, j);
  }

  /** The path of the whole host is the path of its longest label suffix. */
  lemma WholePath(host: string)
    ensures PathOf(host) == SuffixPath(Split(host, '.'), 0)
    ensures Suffix(Split(host, '.'), 0) == host
  {
    var labels := Split(host, '.');
    assert labels[0..] == labels;
    JoinSplit(host, '.');
  }

  /** A walk through inner nodes only backtracks over all proper suffixes. */
  lemma InnerBacktracks<V>(nodes: Nodes, values: map<string, V>, host: string)
    requires Wellformed(nodes, values)
    requires IsInner(nodes, SuffixPath(Split(host, '.'), 0))
    ensures Expected(nodes, values, host) == Backtrack(values, Split(host, '.'), 1)
  {
    WholePath(host);
  }

  /**
   * The lookup loops of `Zone.Match` and the wildcard part of `DNS.Match`:
   * walk the tree from the top-level label down; a leaf answers at once,
   * and a missing entry starts the backtracking over the host's proper
   * suffixes, located by byte offset, longest first.
   */
  method Lookup<V>(nodes: Nodes, values: map<string, V>, host: string) returns (r: Option<V>)
    requires Wellformed(nodes, values)
    ensures r == Expected(nodes, values, host)
  {
    var labels := Split(host, '.');
    var j := 0;
    var i := |labels| - 1;
    while i >= 0
      invariant -1 <= i < |labels|
      invariant forall k :: i < k < |labels| ==> IsInner(nodes, SuffixPath(labels, k))
    {
      var q := SuffixPath(labels, i);
      if q !in nodes {
        j := i;
        break;
      }
      if nodes[q] {
        // a leaf: the most specific zone
        LeafAnswers(nodes, values, host, i);
        return Some(values[Suffix(labels, i)]);
      }
      i := i - 1;
    }
    if i < 0 {
      InnerBacktracks(nodes, values, host);
    } else {
      MissBacktracks(nodes, values, host, j);
    }
    r := BacktrackFrom(values, host, j);
  }

  /**
   * The backtracking loop of the lookup: skip the first `j + 1` labels by
   * byte offset, then try each remaining suffix of the host, longest first.
   */
  method BacktrackFrom<V>(values: map<string, V>, host: string, j: nat) returns (r: Option<V>)
    requires j < |Split(host, '.')|
    ensures r == Backtrack(values, Split(host, '.'), j + 1)
  {
    var labels := Split(host, '.');
    var offset := 0;
    var m := 0;
    while m <= j
      invariant m <= j + 1
      invariant offset == Offset(labels, m)
    {
      offset := offset + |labels[m]| + 1;
      m := m + 1;
    }
    JoinSplit(host, '.');
    r := ScanSuffixes(values, labels, host, j + 1, offset);
  }

  /**
   * Tries each suffix of `host` from label `k0` on, longest first, cutting
   * it off at the byte offset where that label starts.
   */
  method ScanSuffixes<V>(values: map<string, V>, labels: seq<string>, host: string, k0: nat, offset0: nat)
    returns (r: Option<V>)
    requires host == Join(labels, ".")
    requires k0 <= |labels| && offset0 == Offset(labels, k0)
    ensures r == Backtrack(values, labels, k0)
  {
    var k := k0;
    var offset := offset0;
    while k < |labels|
      invariant k0 <= k <= |labels|
      invariant offset == Offset(labels, k)
      invariant Backtrack(values, labels, k0) == Backtrack(values, labels, k)
    {
      SuffixAt(labels, k);
      var suffix := host[offset..];
      if suffix in values {
        return Some(values[suffix]);
      }
      offset := offset + |labels[k]| + 1;
      k := k + 1;
    }
    return None;
  }

  // --------------------------------------------------------------- properties

  /** A lookup hit is the value stored for some label suffix of the host. */
  lemma ExpectedIsSuffixValue<V>(nodes: Nodes, values: map<string, V>, host: string)
    requires Wellformed(nodes, values)
    requires Expected(nodes, values, host).Some?
    ensures exists k :: (0 <= k < |Split(host, '.')|
      && Suffix(Split(host, '.'), k) in values
      && Expected(nodes, values, host).value == values[Suffix(Split(host, '.'), k)])
  {
    var labels := Split(host, '.');
    if IsLeaf(nodes, PathOf(host)) {
      JoinSplit(host, '.');
      assert labels[0..] == labels;
      assert Suffix(labels, 0) == host;
    } else {
      BacktrackFinds(values, labels, 1);
      var i :| 1 <= i < |labels| && Suffix(labels, i) in values
               && Expected(nodes, values, host).value == values[Suffix(labels, i)]
               && forall i' :: 1 <= i' < i ==> Suffix(labels, i') !in values;
    }
  }

  /**
   * A zone matches its own base name while nothing is stored below it: after
   * `*.example.com` alone, `example.com` itself is a hit.
   */
  lemma ZoneMatchesItsBase<V>(nodes: Nodes, values: map<string, V>, zone: string, v: V)
    requires Wellformed(nodes, values)
    requires !IsInner(nodes, PathOf(zone))
    ensures Wellformed(Grow(nodes, PathOf(zone), 0), values[zone := v])
    ensures Expected(Grow(nodes, PathOf(zone), 0), values[zone := v], zone) == Some(v)
  {
    GrowKeepsWellformed(nodes, values, zone, v);
    var p := PathOf(zone);
    var s := StopDepth(nodes, p, 0);
    GrowAtStop(nodes, p, 0);
    assert p[..|p|] == p;
    HangToFacts(nodes, p, s + 1, |p| + 1, p);
  }

  /** After a zone is added, every proper prefix of its path is an inner node. */
  lemma GrowMakesPrefixesInner(nodes: Nodes, p: seq<string>, e: nat)
    requires 1 <= e < |p|
    ensures IsInner(Grow(nodes, p, 0), p[..e])
  {
    var s := StopDepth(nodes, p, 0);
    GrowAtStop(nodes, p, 0);
    if e <= s {
      assert IsInner(nodes, p[..e]);
    }
    if s < |p| {
      var q := p[..e];
      assert |q| == e && q == p[..|q|];
      HangToFacts(nodes, p, s + 1, |p| + 1, q);
    }
  }

  /**
   * Adding a deeper zone takes that hit away again: once `*.a.example.com`
   * is added, `example.com` is looked up through its proper suffixes only.
   */
  lemma DeeperZoneHidesBase<V>(nodes: Nodes, values: map<string, V>, zone: string, deeper: string, v: V)
    requires Wellformed(nodes, values)
    requires |PathOf(zone)| < |PathOf(deeper)| && PathOf(deeper)[..|PathOf(zone)|] == PathOf(zone)
    ensures Wellformed(Grow(nodes, PathOf(deeper), 0), values[deeper := v])
    ensures Expected(Grow(nodes, PathOf(deeper), 0), values[deeper := v], zone)
         == Backtrack(values[deeper := v], Split(zone, '.'), 1)
  {
    GrowKeepsWellformed(nodes, values, deeper, v);
    GrowMakesPrefixesInner(nodes, PathOf(deeper), |PathOf(zone)|);
  }
}
