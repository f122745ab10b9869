/**
 * `Trie` (base/src/pkg/trie/trie.go): one rule set made of an exact host
 * table, a `Zone` of wildcard rules and a `CIDR` list.  `Insert` routes a
 * rule by its form; `Match` tries the exact table, then either the network
 * list (for an IP literal) or the zones; `Walk` lists every rule.
 */
module RuleTrie {
  import opened Wrappers
  import opened Text
  import opened NetAddr
  import opened LabelTrie
  import opened ZoneTrie
  import opened CidrList
  import opened Iteration

  /** The state of a `Trie`, as one value. */
  datatype Rules<V> = Rules(hosts: map<string, V>, root: Nodes, zones: map<string, V>, nets: seq<Entry<V>>)

  /** The table a rule goes to. */
  datatype Route = ToNetworks(n: Network) | ToZoneAndHost(base: string) | ToZone(base: string) | ToHost(name: string)

  /**
   * The dispatch of `Insert`: a parseable CIDR, then a leading `.`, then a
   * leading `*.`, then anything else.
   */
  function RouteOf(rule: string): Route {
    match ParseCIDR(rule)
    case Some(n) => ToNetworks(n)
    case None =>
      if HasPrefix(rule, ".") then ToZoneAndHost(rule[1..])
      else if HasPrefix(rule, "*.") then ToZone(rule[2..])
      else ToHost(rule)
  }

  /** The state after `Insert(rule, v)`. */
  function AfterInsert<V>(s: Rules<V>, rule: string, v: V): Rules<V> {
    match RouteOf(rule)
    case ToNetworks(n) => s.(nets := CidrList.Inserted(s.nets, Entry(n, v)))
    case ToZoneAndHost(b) =>
      Rules(s.hosts[b := v], Grow(s.root, PathOf(Canonical(b)), 0), s.zones[Canonical(b) := v], s.nets)
    case ToZone(b) =>
      s.(root := Grow(s.root, PathOf(Canonical(b)), 0), zones := s.zones[Canonical(b) := v])
    case ToHost(h) => s.(hosts := s.hosts[h := v])
  }

  /** The answer of `Match(host)`. */
  function Matched<V>(s: Rules<V>, host: string): Option<V>
    requires Wellformed(s.root, s.zones)
  {
    if host in s.hosts then Some(s.hosts[host])
    else match ParseIPv4(host)
      case Some(ip) => FirstMatch(s.nets, IPBits(ip))
      case None => ZoneMatched(s.root, s.zones, host)
  }

  /** The zones, each written `*.zone`, in the order the zone table is ranged over. */
  function ZoneItems<V>(zones: map<string, V>, order: seq<string>): seq<(string, V)>
    requires forall k :: k in order ==> k in zones
  {
    seq(|order|, i requires 0 <= i < |order| => ("*." + order[i], zones[order[i]]))
  }

  /** The networks, in list order, each written as `ParseCIDR` reads it. */
  function NetItems<V>(nets: seq<Entry<V>>): seq<(string, V)>
    requires forall e :: e in nets ==> CanonicalV4(e.network)
  {
    seq(|nets|, i requires 0 <= i < |nets| => (NetworkString(nets[i].network), nets[i].value))
  }

  /** Every rule in the order `Walk` yields them, given the order the two maps are ranged over. */
  function Listing<V>(s: Rules<V>, hostOrder: seq<string>, zoneOrder: seq<string>): seq<(string, V)>
    requires forall k :: k in hostOrder ==> k in s.hosts
    requires forall k :: k in zoneOrder ==> k in s.zones
    requires forall e :: e in s.nets ==> CanonicalV4(e.network)
  {
    Entries(s.hosts, hostOrder) + ZoneItems(s.zones, zoneOrder) + NetItems(s.nets)
  }

  class Trie<V> {
    var host: map<string, V>
    const zone: Zone<V>
    const cidr: CIDR<V>

    function State(): Rules<V>
      reads this, zone, cidr
    {
      Rules(host, zone.root, zone.values, cidr.entries)
    }

    /** The zone's tables agree, and every listed network is one `ParseCIDR` built. */
    ghost predicate Valid()
      reads this, zone, cidr
    {
      zone.Valid() && NetsCanonical()
    }

    /** Every listed network is one `ParseCIDR` built. */
    ghost predicate NetsCanonical()
      reads this, cidr
    {
      forall e :: e in cidr.entries ==> CanonicalV4(e.network)
    }

    /** The zero value. */
    constructor ()
      ensures Valid() && fresh(zone) && fresh(cidr)
      ensures State() == Rules(map[], map[], map[], [])
    {
      host := map[];
      zone := new Zone();
      cidr := new CIDR();
    }

    method Insert(rule: string, value: V)
      requires Valid()
      modifies this, zone, cidr
      ensures Valid()
      ensures State() == AfterInsert(old(State()), rule, value)
    {
      var n := ParseCIDR(rule);
      if n.Some? {
        assert RouteOf(rule) == ToNetworks(n.value);
        InsertNetwork(n.value, value);
      } else if HasPrefix(rule, ".") {
        assert RouteOf(rule) == ToZoneAndHost(rule[1..]);
        InsertZone(rule[1..], value, true);
      } else if HasPrefix(rule, "*.") {
        assert RouteOf(rule) == ToZone(rule[2..]);
        InsertZone(rule[2..], value, false);
      } else {
        assert RouteOf(rule) == ToHost(rule);
        host := host[rule := value];
      }
    }

    /** The CIDR branch of `Insert`. */
    method InsertNetwork(n: Network, value: V)
      requires Valid() && CanonicalV4(n)
      modifies cidr
      ensures Valid()
      ensures State() == old(State()).(nets := Inserted(old(cidr.entries), Entry(n, value)))
    {
      InsertedFrom(cidr.entries, Entry(n, value));
      cidr.Insert(n, value);
    }

    /** The zone branches of `Insert`: `base` as a zone, and as an exact host when `exact`. */
    method InsertZone(base: string, value: V, exact: bool)
      requires Valid()
      modifies this, zone
      ensures Valid()
      ensures State() == Rules(if exact then old(host)[base := value] else old(host),
                               Grow(old(zone.root), PathOf(Canonical(base)), 0),
                               old(zone.values)[Canonical(base) := value], old(cidr.entries))
    {
      zone.Insert(base, value);
      if exact {
        host := host[base := value];
      }
    }

    method Match(h: string) returns (r: Option<V>)
      requires Valid()
      ensures r == Matched(State(), h)
    {
      if h in host {
        return Some(host[h]);
      }
      var ip := ParseIPv4(h);
      if ip.Some? {
        r := cidr.Match(IPBits(ip.value));
        return;
      }
      r := zone.Match(h);
    }

    /**
     * Calls `visit` on each exact rule, then each zone as `*.zone`, then each
     * network in list order, stopping after the first call that returns
     * false; returns the calls made.
     */
    method Walk(hostOrder: seq<string>, zoneOrder: seq<string>, visit: (string, V) -> bool)
      returns (calls: seq<(string, V)>)
      requires Valid()
      requires Enumerates(hostOrder, host) && Enumerates(zoneOrder, zone.values)
      ensures calls == YieldedUntilStop(Listing(State(), hostOrder, zoneOrder), visit)
    {
      Chained(Entries(host, hostOrder), ZoneItems(zone.values, zoneOrder), NetItems(cidr.entries), visit);
      var more;
      calls, more := YieldEntries(host, hostOrder, visit);
      if !more {
        return;
      }
      var c;
      c, more := WalkZones(zone.values, zoneOrder, visit);
      calls := calls + c;
      if !more {
        return;
      }
      c, more := WalkNets(cidr.entries, visit);
      calls := calls + c;
    }
  }

  /** The second loop of `Walk`: the zones, each written `*.zone`. */
  method WalkZones<V>(zones: map<string, V>, order: seq<string>, visit: (string, V) -> bool)
    returns (calls: seq<(string, V)>, more: bool)
    requires forall k :: k in order ==> k in zones
    ensures calls == YieldedUntilStop(ZoneItems(zones, order), visit)
    ensures more == AllAccepted(ZoneItems(zones, order), visit)
  {
    ghost var items := ZoneItems(zones, order);
    calls := [];
    var i := 0;
    while i < |order|
      invariant 0 <= i <= |order|
      invariant calls == items[..i] && AllAccepted(calls, visit)
    {
      var k := order[i];
      var item := ("*." + k, zones[k]);
      assert item == items[i];
      calls := calls + [item];
      assert calls == items[..i + 1];
      if !visit(item.0, item.1) {
        StopsAt(items, [], visit, i);
        assert items + [] == items;
        return calls, false;
      }
      i := i + 1;
    }
    assert calls == items;
    NeverStops(items, visit);
    return calls, true;
  }

  /** The third loop of `Walk`: the networks in list order. */
  method WalkNets<V>(nets: seq<Entry<V>>, visit: (string, V) -> bool)
    returns (calls: seq<(string, V)>, more: bool)
    requires forall e :: e in nets ==> CanonicalV4(e.network)
    ensures calls == YieldedUntilStop(NetItems(nets), visit)
    ensures more == AllAccepted(NetItems(nets), visit)
  {
    ghost var items := NetItems(nets);
    calls := [];
    var i := 0;
    while i < |nets|
      invariant 0 <= i <= |nets|
      invariant calls == items[..i] && AllAccepted(calls, visit)
    {
      var e := nets[i];
      var item := (NetworkString(e.network), e.value);
      assert item == items[i];
      calls := calls + [item];
      assert calls == items[..i + 1];
      if !visit(item.0, item.1) {
        StopsAt(items, [], visit, i);
        assert items + [] == items;
        return calls, false;
      }
      i := i + 1;
    }
    assert calls == items;
    NeverStops(items, visit);
    return calls, true;
  }

  // ---------------------------------------------------------------- routing

  /** Text that does not start with a digit is no CIDR. */
  lemma NoDigitNoCidr(rule: string)
    requires |rule| > 0 && !Strconv.IsDigit(rule[0])
    ensures ParseCIDR(rule) == None
  {
    match IndexOf(rule, '/')
    case None =>
    case Some(i) =>
      var a := rule[..i];
      if |a| > 0 {
        var parts := Split(a, '.');
        assert parts[0] == a[..|parts[0]|] by { SplitHead(a); }
        if |parts[0]| > 0 { assert parts[0][0] == rule[0]; }
      } else {
        assert Split(a, '.') == [a];
      }
  }

  /** The first piece of a split is a prefix of the text. */
  lemma SplitHead(s: string)
    ensures |Split(s, '.')[0]| <= |s| && Split(s, '.')[0] == s[..|Split(s, '.')[0]|]
  {
  }

  /** A CIDR rule changes the network list only. */
  lemma CidrRuleIsListOnly<V>(s: Rules<V>, rule: string, v: V)
    requires ParseCIDR(rule).Some?
    ensures AfterInsert(s, rule, v) == s.(nets := CidrList.Inserted(s.nets, Entry(ParseCIDR(rule).value, v)))
  {
  }

  /** `.x` enters `x` as a zone and as an exact host. */
  lemma DotRuleIsZoneAndHost<V>(s: Rules<V>, rule: string, v: V)
    requires HasPrefix(rule, ".")
    ensures AfterInsert(s, rule, v).hosts == s.hosts[rule[1..] := v]
    ensures AfterInsert(s, rule, v).zones == s.zones[Canonical(rule[1..]) := v]
    ensures AfterInsert(s, rule, v).nets == s.nets
  {
    NoDigitNoCidr(rule);
  }

  /** `*.x` enters `x` as a zone only. */
  lemma StarRuleIsZoneOnly<V>(s: Rules<V>, rule: string, v: V)
    requires HasPrefix(rule, "*.")
    ensures AfterInsert(s, rule, v).hosts == s.hosts
    ensures AfterInsert(s, rule, v).zones == s.zones[Canonical(rule[2..]) := v]
    ensures AfterInsert(s, rule, v).nets == s.nets
  {
    NoDigitNoCidr(rule);
  }

  /** Any other rule enters the exact table only. */
  lemma OtherRuleIsHostOnly<V>(s: Rules<V>, rule: string, v: V)
    requires ParseCIDR(rule).None? && !HasPrefix(rule, ".") && !HasPrefix(rule, "*.")
    ensures AfterInsert(s, rule, v) == s.(hosts := s.hosts[rule := v])
  {
  }

  /** An exact rule is consulted first and answers as stored. */
  lemma ExactRuleFirst<V>(s: Rules<V>, host: string)
    requires Wellformed(s.root, s.zones) && host in s.hosts
    ensures Matched(s, host) == Some(s.hosts[host])
  {
  }

  /** An IP literal without an exact rule is looked up in the network list only, never in the zones. */
  lemma IpLiteralSkipsZones<V>(s: Rules<V>, host: string)
    requires Wellformed(s.root, s.zones) && host !in s.hosts
    requires ParseIPv4(host).Some?
    ensures Matched(s, host) == FirstMatch(s.nets, IPBits(ParseIPv4(host).value))
  {
  }

  /** After a CIDR rule is added, every address inside it that has no exact rule is a hit. */
  lemma CidrRuleCovers<V>(s: Rules<V>, rule: string, v: V, host: string)
    requires Wellformed(s.root, s.zones)
    requires ParseCIDR(rule).Some? && ParseIPv4(host).Some? && host !in s.hosts
    requires Contains(ParseCIDR(rule).value, IPBits(ParseIPv4(host).value))
    ensures Wellformed(AfterInsert(s, rule, v).root, AfterInsert(s, rule, v).zones)
    ensures Matched(AfterInsert(s, rule, v), host).Some?
  {
    InsertedCovers(s.nets, Entry(ParseCIDR(rule).value, v), IPBits(ParseIPv4(host).value));
  }

  /** Inserting any rule keeps the zone tree and the zone table in step. */
  lemma AfterInsertKeepsWellformed<V>(s: Rules<V>, rule: string, v: V)
    requires Wellformed(s.root, s.zones)
    ensures Wellformed(AfterInsert(s, rule, v).root, AfterInsert(s, rule, v).zones)
  {
    var r := RouteOf(rule);
    if r.ToZoneAndHost? || r.ToZone? {
      GrowKeepsWellformed(s.root, s.zones, Canonical(r.base), v);
      ZoneRouteGrows(s, rule, v);
    } else {
      OtherRoutesKeepZones(s, rule, v);
    }
  }

  lemma ZoneRouteGrows<V>(s: Rules<V>, rule: string, v: V)
    requires RouteOf(rule).ToZoneAndHost? || RouteOf(rule).ToZone?
    ensures AfterInsert(s, rule, v).root == Grow(s.root, PathOf(Canonical(RouteOf(rule).base)), 0)
    ensures AfterInsert(s, rule, v).zones == s.zones[Canonical(RouteOf(rule).base) := v]
  {
  }

  lemma OtherRoutesKeepZones<V>(s: Rules<V>, rule: string, v: V)
    requires !RouteOf(rule).ToZoneAndHost? && !RouteOf(rule).ToZone?
    ensures AfterInsert(s, rule, v).root == s.root && AfterInsert(s, rule, v).zones == s.zones
  {
  }

  /** A rule for a plain host name is found again by exactly that name. */
  lemma HostRuleMatches<V>(s: Rules<V>, rule: string, v: V)
    requires Wellformed(s.root, s.zones)
    requires ParseCIDR(rule).None? && !HasPrefix(rule, ".") && !HasPrefix(rule, "*.")
    ensures Wellformed(AfterInsert(s, rule, v).root, AfterInsert(s, rule, v).zones)
    ensures Matched(AfterInsert(s, rule, v), rule) == Some(v)
  {
  }
}
