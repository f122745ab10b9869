/**
 * The parts of Go's `net` package the modelled code calls: `SplitHostPort`,
 * `JoinHostPort`, `ParseIP` and `ParseCIDR` for IPv4 text, and the
 * dotted-quad and `a.b.c.d/n` printing of addresses, masks and networks.
 * An address is a sequence of octets; a network keeps its address as bits.
 */
module NetAddr {
  import opened Wrappers
  import opened Text
  import opened Strconv

  type Octet = n: nat | n < 256

  // ------------------------------------------------------------ host:port

  /** The reasons `net.SplitHostPort` gives for refusing an address. */
  datatype AddrError = MissingPort | TooManyColons | MissingBracket | UnexpectedOpen | UnexpectedClose

  /** The last position of `c` in `s`. */
  function LastIndexOf(s: string, c: char): (r: Option<nat>)
    ensures r.Some? ==> r.value < |s| && s[r.value] == c && c !in s[r.value + 1..]
    ensures r.None? ==> c !in s
  {
    if |s| == 0 then None
    else if s[|s| - 1] == c then Some(|s| - 1)
    else
      var r := LastIndexOf(s[..|s| - 1], c);
      assert r.Some? ==> s[r.value + 1..] == s[..|s| - 1][r.value + 1..] + [s[|s| - 1]];
      assert s == s[..|s| - 1] + [s[|s| - 1]];
      r
  }

  /**
   * `net.SplitHostPort`: the port follows the last colon; a host holding a
   * colon must be in brackets, and brackets may appear nowhere else.
   */
  function SplitHostPort(hp: string): Result<(string, string), AddrError> {
    match LastIndexOf(hp, ':')
    case None => Err(MissingPort)
    case Some(i) =>
      var bracketed := hp[0] == '[';
      var end := IndexOf(hp, ']');
      if bracketed && end.None? then Err(MissingBracket)
      else if bracketed && end.value + 1 == |hp| then Err(MissingPort)
      else if bracketed && end.value + 1 != i then
        (if hp[end.value + 1] == ':' then Err(TooManyColons) else Err(MissingPort))
      else if !bracketed && ':' in hp[..i] then Err(TooManyColons)
      else
        var host := if bracketed then hp[1..end.value] else hp[..i];
        var j := if bracketed then 1 else 0;
        var k := if bracketed then end.value + 1 else 0;
        if '[' in hp[j..] then Err(UnexpectedOpen)
        else if ']' in hp[k..] then Err(UnexpectedClose)
        else Ok((host, hp[i + 1..]))
  }

  /** `net.JoinHostPort`: a host holding a colon is put in brackets. */
  function JoinHostPort(host: string, port: string): string {
    if ':' in host then "[" + host + "]:" + port else host + ":" + port
  }

  /**
   * Splitting a joined address gives the host and port back, for every host
   * without brackets and every port without colons or brackets.
   */
  lemma SplitJoinHostPort(host: string, port: string)
    requires '[' !in host && ']' !in host
    requires ':' !in port && '[' !in port && ']' !in port
    ensures SplitHostPort(JoinHostPort(host, port)) == Ok((host, port))
  {
    if ':' in host {
      SplitBracketed(host, port);
    } else {
      SplitPlain(host, port);
    }
  }

  lemma SplitBracketed(host: string, port: string)
    requires ':' in host && '[' !in host && ']' !in host
    requires ':' !in port && '[' !in port && ']' !in port
    ensures SplitHostPort("[" + host + "]:" + port) == Ok((host, port))
  {
    BracketedClose(host, port);
    BracketedColon(host, port);
    BracketedPieces(host, port);
    SplitBracketedShape("[" + host + "]:" + port, |host| + 1);
  }

  /** In `[host]:port` the first `]` is the one the join put there. */
  lemma BracketedClose(host: string, port: string)
    requires ']' !in host
    ensures IndexOf("[" + host + "]:" + port, ']') == Some(|host| + 1)
  {
    var pre := ['['] + host;
    assert ']' !in pre;
    IndexAfterFreePrefix(pre, ']', [':'] + port);
    assert pre + [']'] + ([':'] + port) == "[" + host + "]:" + port;
  }

  /** In `[host]:port` the last `:` is the one the join put there. */
  lemma BracketedColon(host: string, port: string)
    requires ':' !in port
    ensures LastIndexOf("[" + host + "]:" + port, ':') == Some(|host| + 2)
  {
    var pre := "[" + host + "]";
    ColonJoin(pre, host, port);
    LastOfFreeSuffix(pre, ':', port);
  }

  /** `[host]:port` is `[host]`, a colon and the port. */
  lemma ColonJoin(pre: string, host: string, port: string)
    requires pre == "[" + host + "]"
    ensures pre + [':'] + port == "[" + host + "]:" + port
  {
    assert "]:" == "]" + ":";
  }

  /** The slices of `[host]:port` that `SplitHostPort` inspects. */
  lemma BracketedPieces(host: string, port: string)
    requires '[' !in host && ']' !in host && '[' !in port && ']' !in port
    ensures var hp := "[" + host + "]:" + port;
      |hp| == |host| + |port| + 3 && hp[0] == '[' && hp[1..|host| + 1] == host && hp[|host| + 3..] == port
      && '[' !in hp[1..] && ']' !in hp[|host| + 2..]
  {
    var hp := "[" + host + "]:" + port;
    assert hp[1..] == host + "]:" + port;
    assert hp[|host| + 2..] == [':'] + port;
  }

  /** The accepting path of `SplitHostPort` for `[host]:port`. */
  lemma SplitBracketedShape(hp: string, e: nat)
    requires e + 1 < |hp| && hp[0] == '['
    requires IndexOf(hp, ']') == Some(e) && LastIndexOf(hp, ':') == Some(e + 1)
    requires '[' !in hp[1..] && ']' !in hp[e + 1..]
    ensures SplitHostPort(hp) == Ok((hp[1..e], hp[e + 2..]))
  {
  }

  lemma SplitPlain(host: string, port: string)
    requires ':' !in host && '[' !in host && ']' !in host
    requires ':' !in port && '[' !in port && ']' !in port
    ensures SplitHostPort(host + ":" + port) == Ok((host, port))
  {
    var hp := host + ":" + port;
    assert hp == host + [':'] + port;
    LastOfFreeSuffix(host, ':', port);
    assert hp[..|host|] == host;
    assert hp[|host| + 1..] == port;
    assert hp[0..] == hp;
    assert hp[0] != '[';
  }

  lemma LastOfFreeSuffix(p: string, c: char, rest: string)
    requires c !in rest
    ensures LastIndexOf(p + [c] + rest, c) == Some(|p|)
    decreases |rest|
  {
    var s := p + [c] + rest;
    if |rest| == 0 {
      assert s[|s| - 1] == c;
    } else {
      var shorter := rest[..|rest| - 1];
      assert rest == shorter + [rest[|rest| - 1]];
      assert s == (p + [c] + shorter) + [rest[|rest| - 1]];
      assert s[|s| - 1] != c;
      assert s[..|s| - 1] == p + [c] + shorter;
      LastOfFreeSuffix(p, c, shorter);
      assert LastIndexOf(s, c) == LastIndexOf(s[..|s| - 1], c);
    }
  }

  // ------------------------------------------------------------ IPv4 text

  /** A field of a dotted quad as Go accepts it: digits, no leading zero, at most 255. */
  predicate IsOctetText(p: string) {
    |p| >= 1 && AllDigits(p) && (p[0] != '0' || |p| == 1) && DigitsValue(p) < 256
  }

  function OctetOf(p: string): Octet
    requires IsOctetText(p)
  {
    DigitsValue(p)
  }

  /**
   * `net.ParseIP` on IPv4 text: exactly four dot-separated canonical fields.
   */
  function ParseIPv4(s: string): (r: Option<seq<Octet>>)
    ensures r.Some? ==> |r.value| == 4
  {
    var parts := Split(s, '.');
    if |parts| == 4 && IsOctetText(parts[0]) && IsOctetText(parts[1])
       && IsOctetText(parts[2]) && IsOctetText(parts[3])
    then Some([OctetOf(parts[0]), OctetOf(parts[1]), OctetOf(parts[2]), OctetOf(parts[3])])
    else None
  }

  /** `IP.String()` for an IPv4 address: the dotted quad. */
  function FormatIPv4(ip: seq<Octet>): string
    requires |ip| == 4
  {
    Join([FormatNat(ip[0]), FormatNat(ip[1]), FormatNat(ip[2]), FormatNat(ip[3])], ".")
  }

  /** A number written out is canonical octet text when it is below 256. */
  lemma FormatOctetText(n: Octet)
    ensures IsOctetText(FormatNat(n)) && OctetOf(FormatNat(n)) == n
    ensures '.' !in FormatNat(n) && '/' !in FormatNat(n)
  {
    FormatNatDigits(n);
    FormatNatLeading(n);
  }

  lemma {:induction false} FormatNatLeading(n: nat)
    ensures |FormatNat(n)| >= 1
    ensures FormatNat(n)[0] == '0' ==> n == 0
    decreases n
  {
    if n >= 10 {
      FormatNatLeading(n / 10);
    }
  }

  /** Canonical octet text is exactly how its value is written. */
  lemma {:induction false} OctetTextIsFormatted(p: string)
    requires IsOctetText(p)
    ensures FormatNat(OctetOf(p)) == p
  {
    CanonicalDigits(p);
  }

  lemma {:induction false} CanonicalDigits(p: string)
    requires |p| >= 1 && AllDigits(p) && (p[0] != '0' || |p| == 1)
    ensures FormatNat(DigitsValue(p)) == p
    decreases |p|
  {
    if |p| > 1 {
      var q := p[..|p| - 1];
      assert q[0] == p[0];
      CanonicalDigits(q);
      NonZeroLead(q);
      assert p == q + [p[|p| - 1]];
    }
  }

  lemma {:induction false} NonZeroLead(q: string)
    requires |q| >= 1 && AllDigits(q) && q[0] != '0'
    ensures DigitsValue(q) >= 1
    decreases |q|
  {
    if |q| > 1 {
      NonZeroLead(q[..|q| - 1]);
    }
  }

  /** `ParseIP` reads back every address `IP.String()` writes. */
  lemma ParseFormatIPv4(ip: seq<Octet>)
    requires |ip| == 4
    ensures ParseIPv4(FormatIPv4(ip)) == Some(ip)
  {
    FormatOctetText(ip[0]);
    FormatOctetText(ip[1]);
    FormatOctetText(ip[2]);
    FormatOctetText(ip[3]);
    ParseJoinedQuad(FormatNat(ip[0]), FormatNat(ip[1]), FormatNat(ip[2]), FormatNat(ip[3]));
    assert [ip[0], ip[1], ip[2], ip[3]] == ip;
  }

  lemma ParseJoinedQuad(a: string, b: string, c: string, d: string)
    requires IsOctetText(a) && IsOctetText(b) && IsOctetText(c) && IsOctetText(d)
    requires '.' !in a && '.' !in b && '.' !in c && '.' !in d
    ensures ParseIPv4(Join([a, b, c, d], ".")) == Some([OctetOf(a), OctetOf(b), OctetOf(c), OctetOf(d)])
  {
    SplitJoin([a, b, c, d], '.');
  }

  /** Every text `ParseIP` accepts is the dotted quad of its result: there is one spelling per address. */
  lemma FormatParseIPv4(s: string)
    requires ParseIPv4(s).Some?
    ensures FormatIPv4(ParseIPv4(s).value) == s
  {
    var parts := Split(s, '.');
    OctetTextIsFormatted(parts[0]);
    OctetTextIsFormatted(parts[1]);
    OctetTextIsFormatted(parts[2]);
    OctetTextIsFormatted(parts[3]);
    JoinSplit(s, '.');
    assert [parts[0], parts[1], parts[2], parts[3]] == parts;
  }

  // ------------------------------------------------------------- bits

  /** The low `k` bits of `o`, most significant first. */
  function OctetBits(o: nat, k: nat): (r: seq<bool>)
    ensures |r| == k
  {
    if k == 0 then [] else OctetBits(o / 2, k - 1) + [o % 2 == 1]
  }

  /** The number a run of bits spells, most significant first. */
  function BitsValue(bs: seq<bool>): nat {
    if |bs| == 0 then 0 else 2 * BitsValue(bs[..|bs| - 1]) + (if bs[|bs| - 1] then 1 else 0)
  }

  lemma {:induction false} BitsValueBound(bs: seq<bool>)
    ensures BitsValue(bs) < Pow2(|bs|)
  {
    if |bs| > 0 { BitsValueBound(bs[..|bs| - 1]); }
  }

  lemma {:induction false} BitsValueOfOctetBits(o: nat, k: nat)
    requires o < Pow2(k)
    ensures BitsValue(OctetBits(o, k)) == o
  {
    if k > 0 {
      var r := OctetBits(o, k);
      assert r[..k - 1] == OctetBits(o / 2, k - 1);
      BitsValueOfOctetBits(o / 2, k - 1);
    }
  }

  lemma {:induction false} OctetBitsOfValue(bs: seq<bool>)
    ensures OctetBits(BitsValue(bs), |bs|) == bs
  {
    if |bs| > 0 {
      var init := bs[..|bs| - 1];
      OctetBitsOfValue(init);
      var v := BitsValue(bs);
      assert v / 2 == BitsValue(init);
      assert bs == init + [bs[|bs| - 1]];
    }
  }

  /** An address as 8 bits per octet. */
  function IPBits(ip: seq<Octet>): (r: seq<bool>)
    ensures |r| == 8 * |ip|
  {
    if |ip| == 0 then [] else OctetBits(ip[0], 8) + IPBits(ip[1..])
  }

  /** Bits back to octets, 8 at a time. */
  function BitsIP(bs: seq<bool>): (r: seq<Octet>)
    requires |bs| % 8 == 0
    ensures |r| == |bs| / 8
  {
    if |bs| == 0 then []
    else
      BitsValueBound(bs[..8]);
      [BitsValue(bs[..8]) as Octet] + BitsIP(bs[8..])
  }

  lemma {:induction false} BitsIPOfIPBits(ip: seq<Octet>)
    ensures BitsIP(IPBits(ip)) == ip
  {
    if |ip| > 0 {
      var bs := IPBits(ip);
      assert bs[..8] == OctetBits(ip[0], 8);
      assert bs[8..] == IPBits(ip[1..]);
      BitsValueOfOctetBits(ip[0], 8);
      BitsIPOfIPBits(ip[1..]);
    }
  }

  lemma {:induction false} IPBitsOfBitsIP(bs: seq<bool>)
    requires |bs| % 8 == 0
    ensures IPBits(BitsIP(bs)) == bs
  {
    if |bs| > 0 {
      OctetBitsOfValue(bs[..8]);
      IPBitsOfBitsIP(bs[8..]);
      assert bs == bs[..8] + bs[8..];
    }
  }

  // ------------------------------------------------------------- networks

  /**
   * A `net.IPNet`: the network address as bits, all zero after the first
   * `ones`, and the length of its mask.
   */
  datatype Network = Network(bits: seq<bool>, ones: nat)

  /** `IP.Mask`: the first `ones` bits kept, the rest cleared. */
  function MaskBits(bs: seq<bool>, ones: nat): (r: seq<bool>)
    ensures |r| == |bs|
    ensures forall i :: 0 <= i < |bs| ==> r[i] == (i < ones && bs[i])
  {
    seq(|bs|, i requires 0 <= i < |bs| => i < ones && bs[i])
  }

  /** `IPNet.Contains` for an address of the same length: the first `ones` bits agree. */
  predicate Contains(n: Network, ip: seq<bool>) {
    |ip| == |n.bits| && n.ones <= |ip| && ip[..n.ones] == n.bits[..n.ones]
  }

  /** A network as `ParseCIDR` builds it: 32 bits, no bit set past the mask. */
  predicate CanonicalV4(n: Network) {
    |n.bits| == 32 && n.ones <= 32 && MaskBits(n.bits, n.ones) == n.bits
  }

  /** The mask length of `ParseCIDR`: decimal digits, at most the address length. */
  predicate IsMaskText(m: string) {
    |m| >= 1 && AllDigits(m) && DigitsValue(m) <= 32
  }

  /**
   * `net.ParseCIDR` on IPv4 text: an address, a slash and a mask length; the
   * network keeps the address's bits under the mask.
   */
  function ParseCIDR(s: string): (r: Option<Network>)
    ensures r.Some? ==> CanonicalV4(r.value)
  {
    match IndexOf(s, '/')
    case None => None
    case Some(i) =>
      var ip := ParseIPv4(s[..i]);
      var m := s[i + 1..];
      if ip.Some? && IsMaskText(m) then
        var n := Network(MaskBits(IPBits(ip.value), DigitsValue(m)), DigitsValue(m));
        assert MaskBits(n.bits, n.ones) == n.bits;
        Some(n)
      else None
  }

  /** `IPNet.IP.String()`: the network address as a dotted quad. */
  function NetworkIP(n: Network): string
    requires CanonicalV4(n)
  {
    FormatIPv4(BitsIP(n.bits))
  }

  /** `net.IP(IPNet.Mask).String()`: the mask as a dotted quad. */
  function NetworkMask(n: Network): string
    requires CanonicalV4(n)
  {
    FormatIPv4(BitsIP(MaskBits(seq(32, i => true), n.ones)))
  }

  /** `IPNet.String()`: address, slash, mask length. */
  function NetworkString(n: Network): string
    requires CanonicalV4(n)
  {
    NetworkIP(n) + "/" + FormatNat(n.ones)
  }

  /** The network `ParseCIDR` builds contains the address it was written with. */
  lemma ParsedNetworkContainsAddress(s: string, i: nat)
    requires i < |s| && s[i] == '/' && '/' !in s[..i]
    requires ParseCIDR(s).Some?
    ensures ParseIPv4(s[..i]).Some?
    ensures Contains(ParseCIDR(s).value, IPBits(ParseIPv4(s[..i]).value))
  {
  }

  /** `ParseCIDR` reads back every network `IPNet.String()` writes. */
  lemma ParseNetworkString(n: Network)
    requires CanonicalV4(n)
    ensures ParseCIDR(NetworkString(n)) == Some(n)
  {
    var ip := BitsIP(n.bits);
    var text := NetworkIP(n);
    var m := FormatNat(n.ones);
    var s := NetworkString(n);
    ParseFormatIPv4(ip);
    FormatOctetText(ip[0]);
    FormatOctetText(ip[1]);
    FormatOctetText(ip[2]);
    FormatOctetText(ip[3]);
    NoSlashInJoin([FormatNat(ip[0]), FormatNat(ip[1]), FormatNat(ip[2]), FormatNat(ip[3])]);
    IndexAfterFreePrefix(text, '/', m);
    assert s == text + ['/'] + m;
    assert s[..|text|] == text;
    assert s[|text| + 1..] == m;
    FormatNatDigits(n.ones);
    IPBitsOfBitsIP(n.bits);
  }

  lemma {:induction false} NoSlashInJoin(parts: seq<string>)
    requires forall k :: 0 <= k < |parts| ==> '/' !in parts[k]
    ensures '/' !in Join(parts, ".")
  {
    if |parts| > 1 {
      NoSlashInJoin(parts[1..]);
      assert Join(parts, ".") == parts[0] + "." + Join(parts[1..], ".");
    }
  }
}
