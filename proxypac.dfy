/**
 * The PAC script served for the proxy rule set (proxy/pac.go): one
 * `if (...) return "...";` line per rule that has both host conditions and
 * proxies, between the `FindProxyForURL` header and the `DIRECT` fallback.
 */
module ProxyPac {
  import opened Wrappers
  import opened Text
  import opened NetAddr
  import opened JsonString

  /** The host matchers of a rule; `OtherMatcher` is any matcher type the script cannot express. */
  datatype HostMatcher =
    | Literal(host: string)
    | CidrMatcher(network: Network)
    | RegexMatcher(pattern: string)
    | OtherMatcher

  /** A proxy URL: its scheme, its `Host` (with port) and its `Hostname()` (without). */
  datatype ProxyUrl = ProxyUrl(scheme: string, host: string, hostname: string)

  datatype Rule = Rule(hosts: seq<HostMatcher>, proxies: seq<ProxyUrl>)

  /** CIDR matchers hold networks as `ParseCIDR` builds them. */
  predicate ValidMatcher(m: HostMatcher) {
    m.CidrMatcher? ==> CanonicalV4(m.network)
  }

  predicate ValidRule(r: Rule) {
    forall j :: 0 <= j < |r.hosts| ==> ValidMatcher(r.hosts[j])
  }

  predicate ValidRules(rules: seq<Rule>) {
    forall i :: 0 <= i < |rules| ==> ValidRule(rules[i])
  }

  const Header: string := "function FindProxyForURL(url, host) {\n"
  const ReturnDirect: string := "\treturn \"DIRECT\";\n"
  const Footer: string := "}\n"

  /** `toJSCondition`: the JavaScript test for one matcher. */
  function JSCondition(m: HostMatcher): string
    requires ValidMatcher(m)
  {
    match m
    case Literal(h) => "host == \"" + h + "\""
    case CidrMatcher(n) => "isInNet(host, \"" + NetworkIP(n) + "\", \"" + NetworkMask(n) + "\")"
    case RegexMatcher(pat) => "new RegExp(" + Quote(pat) + ").test(host)"
    case OtherMatcher => "false"
  }

  /** `toPACDirective`: the scheme upper-cased (`HTTP` spelled `PROXY`) and the host; SOCKS5 adds a SOCKS fallback. */
  function PACDirective(u: ProxyUrl): string {
    var upper := ToUpper(u.scheme);
    var scheme := if upper == "HTTP" then "PROXY" else upper;
    var d := scheme + " " + u.host;
    if scheme == "SOCKS5" then d + "; SOCKS " + u.host else d
  }

  /**
   * The directive for one proxy: the PAC server itself (the request's host)
   * for a scheme browsers cannot use or a proxy that is itself routed by the
   * rules; otherwise the proxy's own directive.
   */
  function ProxyEntry(u: ProxyUrl, matchHost: string -> bool, requestHost: string): string {
    var usePacMan := if u.scheme in {"http", "https", "socks5"} then matchHost(u.hostname) else true;
    if usePacMan then "PROXY " + requestHost else PACDirective(u)
  }

  function Conditions(hosts: seq<HostMatcher>): (r: seq<string>)
    requires forall j :: 0 <= j < |hosts| ==> ValidMatcher(hosts[j])
    ensures |r| == |hosts|
  {
    seq(|hosts|, i requires 0 <= i < |hosts| && ValidMatcher(hosts[i]) => JSCondition(hosts[i]))
  }

  function Entries(proxies: seq<ProxyUrl>, matchHost: string -> bool, requestHost: string): (r: seq<string>)
    ensures |r| == |proxies|
  {
    seq(|proxies|, i requires 0 <= i < |proxies| => ProxyEntry(proxies[i], matchHost, requestHost))
  }

  function RuleText(cond: seq<string>, prox: seq<string>): string {
    "\tif (" + Join(cond, " || ") + ") return \"" + Join(prox, "; ") + "\";\n"
  }

  /** The line a rule writes: one when it has at least one condition and one proxy, else none. */
  function RuleLine(r: Rule, matchHost: string -> bool, requestHost: string): seq<string>
    requires ValidRule(r)
  {
    if |r.hosts| > 0 && |r.proxies| > 0
    then [RuleText(Conditions(r.hosts), Entries(r.proxies, matchHost, requestHost))]
    else []
  }

  /** The lines of the rules, in rule order. */
  function RuleLines(rules: seq<Rule>, matchHost: string -> bool, requestHost: string): seq<string>
    requires ValidRules(rules)
  {
    if |rules| == 0 then []
    else RuleLine(rules[0], matchHost, requestHost) + RuleLines(rules[1..], matchHost, requestHost)
  }

  /** Everything `ServeHTTP` writes, write by write. */
  function PacWrites(rules: seq<Rule>, matchHost: string -> bool, requestHost: string): seq<string>
    requires ValidRules(rules)
  {
    [Header] + RuleLines(rules, matchHost, requestHost) + [ReturnDirect, Footer]
  }

  /**
   * `PacHandler.ServeHTTP`: the writes made to the response.  `matchHost`
   * answers whether the rule set routes a host; `requestHost` is the host
   * the script was requested from.
   */
  method ServeHTTP(rules: seq<Rule>, matchHost: string -> bool, requestHost: string) returns (writes: seq<string>)
    requires ValidRules(rules)
    ensures writes == PacWrites(rules, matchHost, requestHost)
  {
    writes := [Header];
    var n := 0;
    while n < |rules|
      invariant 0 <= n <= |rules|
      invariant writes + RuleLines(rules[n..], matchHost, requestHost)
        == [Header] + RuleLines(rules, matchHost, requestHost)
    {
      var line := EmitRule(rules[n], matchHost, requestHost);
      RuleLinesStep(rules, n, writes, matchHost, requestHost);
      writes := writes + line;
      n := n + 1;
    }
    writes := writes + [ReturnDirect, Footer];
  }

  /** One pass of the loop of `ServeHTTP`: the rule's line, if it has hosts and proxies. */
  method EmitRule(rule: Rule, matchHost: string -> bool, requestHost: string) returns (line: seq<string>)
    requires ValidRule(rule)
    ensures line == RuleLine(rule, matchHost, requestHost)
  {
    var cond := FillConditions(rule.hosts);
    var prox := FillEntries(rule.proxies, matchHost, requestHost);
    line := [];
    if cond.Length > 0 && prox.Length > 0 {
      line := [RuleText(cond[..], prox[..])];
    }
  }

  /** The `cond` array of a rule: one JavaScript test per host matcher. */
  method FillConditions(hosts: seq<HostMatcher>) returns (cond: array<string>)
    requires forall j :: 0 <= j < |hosts| ==> ValidMatcher(hosts[j])
    ensures fresh(cond) && cond[..] == Conditions(hosts)
  {
    cond := new string[|hosts|];
    var i := 0;
    while i < |hosts|
      invariant 0 <= i <= |hosts|
      invariant cond[..i] == Conditions(hosts)[..i]
    {
      cond[i] := JSCondition(hosts[i]);
      i := i + 1;
    }
  }

  /** The `prox` array of a rule: one directive per proxy. */
  method FillEntries(proxies: seq<ProxyUrl>, matchHost: string -> bool, requestHost: string) returns (prox: array<string>)
    ensures fresh(prox) && prox[..] == Entries(proxies, matchHost, requestHost)
  {
    prox := new string[|proxies|];
    var i := 0;
    while i < |proxies|
      invariant 0 <= i <= |proxies|
      invariant prox[..i] == Entries(proxies, matchHost, requestHost)[..i]
    {
      var u := proxies[i];
      var usePacMan: bool;
      if u.scheme in {"http", "https", "socks5"} {
        usePacMan := matchHost(u.hostname);
      } else {
        usePacMan := true;
      }
      if usePacMan {
        prox[i] := "PROXY " + requestHost;
      } else {
        prox[i] := PACDirective(u);
      }
      i := i + 1;
    }
  }

  // ---------------------------------------------------------------- properties

  lemma UpperLowerChar(c: char, d: char)
    ensures UpperChar(c) == d && 'A' <= d <= 'Z' <==> LowerChar(c) == LowerChar(d) && 'A' <= d <= 'Z'
  {
  }

  /** An `http` scheme in any letter case is written as a `PROXY` directive. */
  lemma HttpIsProxy(u: ProxyUrl)
    requires ToLower(u.scheme) == "http"
    ensures PACDirective(u) == "PROXY " + u.host
  {
    var s := u.scheme;
    assert |s| == 4;
    forall k | 0 <= k < 4 ensures UpperChar(s[k]) == "HTTP"[k] {
      assert LowerChar(s[k]) == "http"[k];
      UpperLowerChar(s[k], "HTTP"[k]);
    }
    assert ToUpper(s) == "HTTP";
  }

  /** Only an `http` scheme, in some letter case, upper-cases to `HTTP`. */
  lemma ProxyOnlyForHttp(u: ProxyUrl)
    requires ToUpper(u.scheme) == "HTTP"
    ensures ToLower(u.scheme) == "http"
  {
    var s := u.scheme;
    assert |s| == 4;
    forall k | 0 <= k < 4 ensures LowerChar(s[k]) == "http"[k] {
      assert UpperChar(s[k]) == "HTTP"[k];
      UpperLowerChar(s[k], "HTTP"[k]);
    }
  }

  /** A SOCKS5 proxy also offers plain SOCKS on the same host, for browsers that do not know SOCKS5. */
  lemma Socks5AddsSocks(u: ProxyUrl)
    requires u.scheme == "socks5"
    ensures PACDirective(u) == "SOCKS5 " + u.host + "; SOCKS " + u.host
  {
    assert ToUpper(u.scheme) == "SOCKS5";
  }

  /** A proxy the rules themselves route, or one of an unusable scheme, is replaced by the PAC server. */
  lemma RoutedProxyGoesThroughServer(u: ProxyUrl, matchHost: string -> bool, requestHost: string)
    ensures ProxyEntry(u, matchHost, requestHost) == "PROXY " + requestHost
      <== (u.scheme !in {"http", "https", "socks5"} || matchHost(u.hostname))
    ensures u.scheme in {"http", "https", "socks5"} && !matchHost(u.hostname) ==>
      ProxyEntry(u, matchHost, requestHost) == PACDirective(u)
  {
  }

  lemma ValidRulesSuffix(rules: seq<Rule>, k: nat)
    requires ValidRules(rules) && k <= |rules|
    ensures ValidRules(rules[k..])
  {
    forall i | 0 <= i < |rules[k..]| ensures ValidRule(rules[k..][i]) {
      assert rules[k..][i] == rules[k + i];
    }
  }

  lemma RuleLinesStep(rules: seq<Rule>, n: nat, before: seq<string>, matchHost: string -> bool, requestHost: string)
    requires ValidRules(rules) && n < |rules|
    ensures ValidRules(rules[n..]) && ValidRules(rules[n + 1..])
    ensures before + RuleLines(rules[n..], matchHost, requestHost)
      == (before + RuleLine(rules[n], matchHost, requestHost)) + RuleLines(rules[n + 1..], matchHost, requestHost)
  {
    ValidRulesSuffix(rules, n);
    ValidRulesSuffix(rules, n + 1);
    assert rules[n..][1..] == rules[n + 1..];
    assert rules[n..][0] == rules[n];
  }

  /** The rule lines of two rule lists in a row are the lines of the first, then those of the second. */
  lemma {:induction false} RuleLinesAppend(a: seq<Rule>, b: seq<Rule>, matchHost: string -> bool, requestHost: string)
    requires ValidRules(a) && ValidRules(b) && ValidRules(a + b)
    ensures RuleLines(a + b, matchHost, requestHost) == RuleLines(a, matchHost, requestHost) + RuleLines(b, matchHost, requestHost)
    decreases |a|
  {
    if |a| == 0 {
      assert a + b == b;
    } else {
      assert (a + b)[1..] == a[1..] + b;
      ValidRulesSuffix(a, 1);
      ValidRulesSuffix(a + b, 1);
      RuleLinesAppend(a[1..], b, matchHost, requestHost);
    }
  }

  /**
   * A rule gives a line exactly when it has both a condition and a proxy; the
   * line is `if (conditions joined by ||) return "proxies joined by ;";`.
   */
  lemma SingleRuleLine(r: Rule, matchHost: string -> bool, requestHost: string)
    requires ValidRules([r])
    ensures |RuleLines([r], matchHost, requestHost)| == 1 <==> |r.hosts| > 0 && |r.proxies| > 0
    ensures |RuleLines([r], matchHost, requestHost)| <= 1
    ensures |r.hosts| > 0 && |r.proxies| > 0 ==>
      RuleLines([r], matchHost, requestHost)[0]
        == "\tif (" + Join(Conditions(r.hosts), " || ") + ") return \"" + Join(Entries(r.proxies, matchHost, requestHost), "; ") + "\";\n"
  {
    assert [r][1..] == [];
  }

  /** The script always opens with the `FindProxyForURL` header and closes with the `DIRECT` fallback. */
  lemma ScriptFrame(rules: seq<Rule>, matchHost: string -> bool, requestHost: string)
    requires ValidRules(rules)
    ensures var w := PacWrites(rules, matchHost, requestHost);
      |w| >= 3 && w[0] == Header && w[|w| - 2] == ReturnDirect && w[|w| - 1] == Footer
      && |w| <= |rules| + 3
  {
    RuleLinesAtMost(rules, matchHost, requestHost);
  }

  lemma {:induction false} RuleLinesAtMost(rules: seq<Rule>, matchHost: string -> bool, requestHost: string)
    requires ValidRules(rules)
    ensures |RuleLines(rules, matchHost, requestHost)| <= |rules|
    decreases |rules|
  {
    if |rules| > 0 {
      ValidRulesSuffix(rules, 1);
      RuleLinesAtMost(rules[1..], matchHost, requestHost);
    }
  }
}
