/**
 * The PAC script served for the HTTP proxy's host trie (httpproxy/pac.go):
 * exact hosts become `case` labels of one `switch` that returns the proxy,
 * wildcard zones and CIDR ranges become tests of one `if` that returns it
 * too, and everything else goes `DIRECT`.
 */
module HttpPac {
  import opened Wrappers
  import opened Text
  import opened Strconv
  import opened NetAddr
  import opened JsonString

  /** `jsString`: the JSON encoding of a string, which JavaScript reads back as that string. */
  function JSString(s: string): string {
    Quote(s)
  }

  /** What one host of the trie contributes: a test for the `if`, or a `case` line of the `switch`. */
  datatype HostEntry = Check(test: string) | CaseLine(line: string)

  /**
   * The test `host.substring(host.length - n) === "suffix"`, where `n` is Go's
   * `len(suffix)`: its length in UTF-8 bytes.
   */
  function SuffixTest(suffix: string): string {
    "host.substring(host.length - " + FormatNat(Utf8Len(suffix)) + ") === " + JSString(suffix)
  }

  /** The test `isInNet(host, "address", "mask")`. */
  function NetTest(n: Network): string
    requires CanonicalV4(n)
  {
    "isInNet(host, \"" + NetworkIP(n) + "\", \"" + NetworkMask(n) + "\")"
  }

  /** The loop body of `ServeHTTP` for one host: `*.zone`, then CIDR, then an exact host. */
  function EntryFor(host: string): HostEntry {
    if HasPrefix(host, "*.") then Check(SuffixTest(TrimPrefix(host, "*")))
    else match ParseCIDR(host)
      case Some(n) => Check(NetTest(n))
      case None => CaseLine("\tcase " + JSString(host) + ":\n")
  }

  /** The tests collected from the hosts, in visiting order. */
  function Checks(hosts: seq<string>): seq<string> {
    if |hosts| == 0 then []
    else
      var e := EntryFor(hosts[|hosts| - 1]);
      Checks(hosts[..|hosts| - 1]) + (if e.Check? then [e.test] else [])
  }

  /** The `case` lines written for the hosts, in visiting order. */
  function Cases(hosts: seq<string>): seq<string> {
    if |hosts| == 0 then []
    else
      var e := EntryFor(hosts[|hosts| - 1]);
      Cases(hosts[..|hosts| - 1]) + (if e.CaseLine? then [e.line] else [])
  }

  const Prologue: seq<string> :=
    ["function FindProxyForURL(url, host) {\n", "\tswitch (host) {\n", "\tdefault:\n", "\t\tbreak;\n"]

  function ReturnProxy(requestHost: string): string {
    "\t\treturn \"PROXY " + requestHost + "\";\n"
  }

  function IfLine(checks: seq<string>): string {
    "\tif (" + Join(checks, " || ") + ") {\n"
  }

  const CloseBlock := "\t}\n"
  const ReturnDirect := "\treturn \"DIRECT\";\n"
  const Footer := "}\n"

  /** The writes after the `case` lines: close the `switch`, the `if` over the tests, the fallback. */
  function Epilogue(checks: seq<string>, requestHost: string): seq<string> {
    [ReturnProxy(requestHost), CloseBlock, IfLine(checks), ReturnProxy(requestHost), CloseBlock, ReturnDirect, Footer]
  }

  /** Everything `ServeHTTP` writes, write by write. */
  function PacWrites(hosts: seq<string>, requestHost: string): seq<string> {
    Prologue + Cases(hosts) + Epilogue(Checks(hosts), requestHost)
  }

  /**
   * `PacHandler.ServeHTTP`: the writes made to the response.  `hosts` is the
   * host trie's keys in the order its `Walk` yields them; `requestHost` is
   * the host the script was requested from.
   */
  method ServeHTTP(hosts: seq<string>, requestHost: string) returns (writes: seq<string>)
    ensures writes == PacWrites(hosts, requestHost)
  {
    var checks;
    checks, writes := WriteCases(hosts, Prologue);
    ghost var body := writes;
    writes := writes + [ReturnProxy(requestHost), CloseBlock];
    writes := writes + [IfLine(checks), ReturnProxy(requestHost), CloseBlock];
    writes := writes + [ReturnDirect, Footer];
    assert writes == body + Epilogue(checks, requestHost);
  }

  /** The loop of `ServeHTTP`: write each host's `case` line after `start`, and collect the tests. */
  method WriteCases(hosts: seq<string>, start: seq<string>) returns (checks: seq<string>, writes: seq<string>)
    ensures checks == Checks(hosts) && writes == start + Cases(hosts)
  {
    checks, writes := [], start;
    var i := 0;
    while i < |hosts|
      invariant 0 <= i <= |hosts|
      invariant checks == Checks(hosts[..i])
      invariant writes == start + Cases(hosts[..i])
    {
      var e := Classify(hosts[i]);
      EntriesStep(hosts, i);
      if e.Check? {
        checks := checks + [e.test];
      } else {
        writes := writes + [e.line];
      }
      i := i + 1;
    }
    assert hosts[..i] == hosts;
  }

  /** The branches of the loop of `ServeHTTP` for one host. */
  method Classify(host: string) returns (e: HostEntry)
    ensures e == EntryFor(host)
  {
    if HasPrefix(host, "*.") {
      var zone := TrimPrefix(host, "*");
      e := Check(SuffixTest(zone));
    } else if ParseCIDR(host).Some? {
      var n := ParseCIDR(host).value;
      e := Check(NetTest(n));
    } else {
      e := CaseLine("\tcase " + JSString(host) + ":\n");
    }
  }

  /** One more host adds its entry to the tests or to the `case` lines. */
  lemma EntriesStep(hosts: seq<string>, i: nat)
    requires i < |hosts|
    ensures Checks(hosts[..i + 1]) == Checks(hosts[..i]) + (if EntryFor(hosts[i]).Check? then [EntryFor(hosts[i]).test] else [])
    ensures Cases(hosts[..i + 1]) == Cases(hosts[..i]) + (if EntryFor(hosts[i]).CaseLine? then [EntryFor(hosts[i]).line] else [])
  {
    assert hosts[..i + 1][..i] == hosts[..i];
  }

  // ---------------------------------------------------------------- properties

  /** JavaScript's `s.substring(start)`: a negative start counts as 0, one past the end as the end. */
  function JsSubstringFrom(s: string, start: int): string {
    if start <= 0 then s else if start >= |s| then "" else s[start..]
  }

  /**
   * For an ASCII zone, the test written for `*.zone` holds for a host exactly
   * when the host ends with `.zone`: the byte length in it is the length of
   * `.zone`, and the quoted text reads back as `.zone`.
   */
  lemma WildcardTestMeansSuffix(zone: string, h: string)
    requires IsAscii(zone)
    ensures EntryFor("*." + zone) == Check(SuffixTest("." + zone))
    ensures Utf8Len("." + zone) == |"." + zone|
    ensures Unquote(JSString("." + zone)) == Some("." + zone)
    ensures JsSubstringFrom(h, |h| - Utf8Len("." + zone)) == "." + zone <==> HasSuffix(h, "." + zone)
  {
    WildcardEntry(zone);
    UnquoteQuote("." + zone);
    DotZoneAscii(zone);
    SubstringSuffix(h, "." + zone);
  }

  /** `.zone` is ASCII exactly when the zone is. */
  lemma DotZoneAscii(zone: string)
    ensures IsAscii("." + zone) <==> IsAscii(zone)
  {
    var s := "." + zone;
    if IsAscii(zone) {
      forall i | 0 <= i < |s| ensures s[i] as int < 0x80 {
        if i > 0 { assert s[i] == zone[i - 1]; }
      }
    } else {
      var i :| 0 <= i < |zone| && zone[i] as int >= 0x80;
      assert s[i + 1] == zone[i];
    }
  }

  /**
   * For a zone with a non-ASCII character, the byte length written into the
   * test exceeds the zone's length in characters, so the test holds for no
   * host but `.zone` itself, not for its subdomains.
   */
  lemma NonAsciiZoneTestMisses(zone: string, h: string)
    requires !IsAscii(zone)
    ensures EntryFor("*." + zone) == Check(SuffixTest("." + zone))
    ensures Utf8Len("." + zone) > |"." + zone|
    ensures JsSubstringFrom(h, |h| - Utf8Len("." + zone)) == "." + zone ==> h == "." + zone
  {
    WildcardEntry(zone);
    DotZoneAscii(zone);
  }

  /** The entry of `*.zone` is the suffix test on `.zone`. */
  lemma WildcardEntry(zone: string)
    ensures EntryFor("*." + zone) == Check(SuffixTest("." + zone))
  {
    var host := "*." + zone;
    assert HasPrefix(host, "*.") by { assert host[..2] == "*."; }
    assert TrimPrefix(host, "*") == "." + zone by { assert host[1..] == "." + zone; }
  }

  /** Taking the last `|s|` characters of `h` gives `s` exactly when `h` ends with `s`. */
  lemma SubstringSuffix(h: string, s: string)
    ensures JsSubstringFrom(h, |h| - |s|) == s <==> HasSuffix(h, s)
  {
  }

  /** A CIDR host becomes an `isInNet` test on its network address and mask. */
  lemma CidrBecomesNetTest(host: string)
    requires !HasPrefix(host, "*.") && ParseCIDR(host).Some?
    ensures EntryFor(host) == Check(NetTest(ParseCIDR(host).value))
  {
  }

  /** Any other host becomes a `case` label that reads back as the host itself. */
  lemma ExactHostBecomesCase(host: string)
    requires !HasPrefix(host, "*.") && ParseCIDR(host).None?
    ensures EntryFor(host) == CaseLine("\tcase " + JSString(host) + ":\n")
    ensures Unquote(JSString(host)) == Some(host)
  {
    UnquoteQuote(host);
  }

  /** Every host gives exactly one test or one `case` line. */
  lemma {:induction false} EachHostOnce(hosts: seq<string>)
    ensures |Checks(hosts)| + |Cases(hosts)| == |hosts|
    decreases |hosts|
  {
    if |hosts| > 0 {
      EachHostOnce(hosts[..|hosts| - 1]);
    }
  }

  /** Tests and `case` lines of hosts visited in two runs are those of the first run, then the second. */
  lemma {:induction false} ChecksAndCasesAppend(a: seq<string>, b: seq<string>)
    ensures Checks(a + b) == Checks(a) + Checks(b)
    ensures Cases(a + b) == Cases(a) + Cases(b)
    decreases |b|
  {
    if |b| > 0 {
      var b' := b[..|b| - 1];
      assert (a + b)[..|a + b| - 1] == a + b';
      assert (a + b)[|a + b| - 1] == b[|b| - 1];
      ChecksAndCasesAppend(a, b');
    } else {
      assert a + b == a;
    }
  }

  /**
   * The script opens with the `switch`, returns the proxy after the `case`
   * lines and again inside the `if`, and ends with the `DIRECT` fallback.
   * With no wildcard or CIDR host the `if` condition is empty.
   */
  lemma ScriptFrame(hosts: seq<string>, requestHost: string)
    ensures var w := PacWrites(hosts, requestHost);
      |w| == |Cases(hosts)| + 11
      && w[..4] == Prologue
      && w[|w| - 7] == ReturnProxy(requestHost)
      && w[|w| - 5] == IfLine(Checks(hosts))
      && w[|w| - 4] == ReturnProxy(requestHost)
      && w[|w| - 2] == ReturnDirect && w[|w| - 1] == Footer
    ensures Checks(hosts) == [] ==> IfLine(Checks(hosts)) == "\tif () {\n"
  {
    var w := PacWrites(hosts, requestHost);
    var tail := Epilogue(Checks(hosts), requestHost);
    var n := |Prologue + Cases(hosts)|;
    assert w == (Prologue + Cases(hosts)) + tail;
    assert w[..4] == (Prologue + Cases(hosts))[..4] == Prologue;
    assert w[n..] == tail;
    assert |w| == n + 7;
    if Checks(hosts) == [] {
      assert Join(Checks(hosts), " || ") == "";
      assert IfLine(Checks(hosts)) == "\tif (" + "" + ") {\n";
    }
  }
}
