/**
 * `DNS` (pkg/trie/dns.go): exact host rules in one table, wildcard rules in
 * another, and the reversed-label tree that lets a wildcard lookup fail
 * early.  Rules and queries are canonicalised (trimmed, lower-cased) first.
 */
module DnsTrie {
  import opened Wrappers
  import opened Text
  import opened LabelTrie

  /** The three tables of a `DNS`, as one value. */
  datatype Tables<V> = Tables(hosts: map<string, V>, wildcard: map<string, V>, root: Nodes)

  /** Where `Insert` puts a rule: the exact-table key and the wildcard-table key, if any. */
  datatype Placement = Placement(exact: Option<string>, zone: Option<string>)

  /**
   * The dispatch of `Insert`: `*.x` is a wildcard rule for `x` only, `.x` is
   * a wildcard rule and an exact rule for `x`, anything else an exact rule.
   */
  function Place(host: string): Placement {
    var c := Canonical(host);
    if HasPrefix(c, "*.") then Placement(None, Some(c[2..]))
    else if HasPrefix(c, ".") then Placement(Some(c[1..]), Some(c[1..]))
    else Placement(Some(c), None)
  }

  /** The tables after `Insert(host, v)`. */
  function Inserted<V>(t: Tables<V>, host: string, v: V): Tables<V> {
    var p := Place(host);
    Tables(
      if p.exact.Some? then t.hosts[p.exact.value := v] else t.hosts,
      if p.zone.Some? then t.wildcard[p.zone.value := v] else t.wildcard,
      if p.zone.Some? then Grow(t.root, PathOf(p.zone.value), 0) else t.root)
  }

  /** The answer of `Match(host)`: the exact rule first, then the wildcard lookup. */
  function Matched<V>(t: Tables<V>, host: string): Option<V>
    requires Wellformed(t.root, t.wildcard)
  {
    var c := Canonical(host);
    if c in t.hosts then Some(t.hosts[c]) else Expected(t.root, t.wildcard, c)
  }

  class DNS<V> {
    var hosts: map<string, V>
    var wildcard: map<string, V>
    var root: Nodes

    function State(): Tables<V>
      reads this
    {
      Tables(hosts, wildcard, root)
    }

    /** Every leaf of the tree names a wildcard rule, and every wildcard rule has its leaf. */
    ghost predicate Valid()
      reads this
    {
      Wellformed(root, wildcard)
    }

    /** `NewDNS`. */
    constructor ()
      ensures Valid()
      ensures State() == Tables(map[], map[], map[])
    {
      hosts := map[];
      wildcard := map[];
      root := map[];
    }

    method Insert(host: string, value: V)
      requires Valid()
      modifies this
      ensures Valid()
      ensures State() == Inserted(old(State()), host, value)
    {
      var h := Canonical(host);
      if HasPrefix(h, "*.") {
        h := TrimPrefix(h, "*.");
        InsertWildcard(h, value);
        return;
      }
      if HasPrefix(h, ".") {
        h := TrimPrefix(h, ".");
        InsertWildcard(h, value);
      }
      InsertHost(h, value);
    }

    method InsertHost(host: string, value: V)
      modifies this
      ensures hosts == old(hosts)[host := value]
      ensures wildcard == old(wildcard) && root == old(root)
    {
      hosts := hosts[host := value];
    }

    method InsertWildcard(suffix: string, value: V)
      requires Valid()
      modifies this
      ensures Valid()
      ensures wildcard == old(wildcard)[suffix := value]
      ensures root == Grow(old(root), PathOf(suffix), 0)
      ensures hosts == old(hosts)
    {
      GrowKeepsWellformed(root, wildcard, suffix, value);
      wildcard := wildcard[suffix := value];
      root := GrowTree(root, suffix);
    }

    method Match(host: string) returns (r: Option<V>)
      requires Valid()
      ensures r == Matched(State(), host)
    {
      var h := Canonical(host);
      if h in hosts {
        return Some(hosts[h]);
      }
      r := Lookup(root, wildcard, h);
    }
  }

  // ---------------------------------------------------------------- properties

  /** Inserting any rule keeps the tree and the wildcard table in step. */
  lemma InsertedKeepsWellformed<V>(t: Tables<V>, host: string, v: V)
    requires Wellformed(t.root, t.wildcard)
    ensures Wellformed(Inserted(t, host, v).root, Inserted(t, host, v).wildcard)
  {
    var p := Place(host);
    if p.zone.Some? {
      GrowKeepsWellformed(t.root, t.wildcard, p.zone.value, v);
    }
  }

  /** Matching ignores surrounding space and letter case. */
  lemma MatchIgnoresCase<V>(t: Tables<V>, host: string)
    requires Wellformed(t.root, t.wildcard)
    ensures Matched(t, ToLower(host)) == Matched(t, host)
    ensures Matched(t, Canonical(host)) == Matched(t, host)
  {
    CanonicalIgnoresCase(host);
    CanonicalIsFixed(host);
  }

  /** A `*.` rule enters the wildcard table only, under the name after `*.`. */
  lemma StarRuleIsWildcardOnly<V>(t: Tables<V>, host: string, v: V)
    requires HasPrefix(Canonical(host), "*.")
    ensures Inserted(t, host, v).hosts == t.hosts
    ensures Inserted(t, host, v).wildcard == t.wildcard[Canonical(host)[2..] := v]
  {
  }

  /** A `.` rule enters both tables under the name after the dot. */
  lemma DotRuleIsBoth<V>(t: Tables<V>, host: string, v: V)
    requires HasPrefix(Canonical(host), ".") && !HasPrefix(Canonical(host), "*.")
    ensures Inserted(t, host, v).hosts == t.hosts[Canonical(host)[1..] := v]
    ensures Inserted(t, host, v).wildcard == t.wildcard[Canonical(host)[1..] := v]
  {
  }

  /** Any other rule enters the exact table only, overwriting an earlier value. */
  lemma PlainRuleIsExactOnly<V>(t: Tables<V>, host: string, v: V)
    requires !HasPrefix(Canonical(host), ".") && !HasPrefix(Canonical(host), "*.")
    ensures Inserted(t, host, v) == Tables(t.hosts[Canonical(host) := v], t.wildcard, t.root)
  {
  }

  /** A plain rule is found again by every spelling of the same host. */
  lemma PlainRuleMatches<V>(t: Tables<V>, host: string, query: string, v: V)
    requires Wellformed(t.root, t.wildcard)
    requires !HasPrefix(Canonical(host), ".") && !HasPrefix(Canonical(host), "*.")
    requires Canonical(query) == Canonical(host)
    ensures Wellformed(Inserted(t, host, v).root, Inserted(t, host, v).wildcard)
    ensures Matched(Inserted(t, host, v), query) == Some(v)
  {
  }

  /** A `.` rule answers for its base name (written canonically), through the exact table. */
  lemma DotRuleMatchesBase<V>(t: Tables<V>, host: string, v: V)
    requires Wellformed(t.root, t.wildcard)
    requires HasPrefix(Canonical(host), ".") && !HasPrefix(Canonical(host), "*.")
    requires Canonical(Canonical(host)[1..]) == Canonical(host)[1..]
    ensures Wellformed(Inserted(t, host, v).root, Inserted(t, host, v).wildcard)
    ensures Matched(Inserted(t, host, v), Canonical(host)[1..]) == Some(v)
  {
    InsertedKeepsWellformed(t, host, v);
  }

  /**
   * A `*.x` rule answers for a one-label subdomain `l.x` that has no rule of
   * its own: the longest proper suffix of `l.x` is `x`.
   */
  lemma StarRuleMatchesSubdomain<V>(t: Tables<V>, host: string, first: string, v: V)
    requires Wellformed(t.root, t.wildcard)
    requires HasPrefix(Canonical(host), "*.")
    requires '.' !in first
    requires var sub := first + "." + Canonical(host)[2..];
      Canonical(sub) == sub && sub !in t.hosts && sub !in t.wildcard
    ensures Wellformed(Inserted(t, host, v).root, Inserted(t, host, v).wildcard)
    ensures Matched(Inserted(t, host, v), first + "." + Canonical(host)[2..]) == Some(v)
  {
    InsertedKeepsWellformed(t, host, v);
    var x := Canonical(host)[2..];
    var sub := first + "." + x;
    var u := Inserted(t, host, v);
    assert sub != x by { assert |sub| > |x|; }
    assert sub !in u.wildcard;
    SplitAfterLabel(first, x);
    var labels := Split(sub, '.');
    JoinSplit(x, '.');
    assert labels[1..] == Split(x, '.');
    assert Suffix(labels, 1) == x;
  }

  /**
   * A hit is the exact rule for the canonical host or the wildcard rule
   * stored for one of its dot-suffixes.
   */
  lemma HitIsRuleForSuffix<V>(t: Tables<V>, host: string)
    requires Wellformed(t.root, t.wildcard)
    requires Matched(t, host).Some?
    ensures var c := Canonical(host);
      (c in t.hosts && Matched(t, host).value == t.hosts[c])
      || (exists k :: 0 <= k < |Split(c, '.')| && Suffix(Split(c, '.'), k) in t.wildcard
            && Matched(t, host).value == t.wildcard[Suffix(Split(c, '.'), k)])
  {
    var c := Canonical(host);
    if c !in t.hosts {
      ExpectedIsSuffixValue(t.root, t.wildcard, c);
    }
  }

  /** An exact rule wins over every wildcard rule. */
  lemma ExactRuleWins<V>(t: Tables<V>, host: string)
    requires Wellformed(t.root, t.wildcard)
    requires Canonical(host) in t.hosts
    ensures Matched(t, host) == Some(t.hosts[Canonical(host)])
  {
  }
}
