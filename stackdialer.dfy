/**
 * The dialer over the user-space network stack (stackutil/dialer.go): the
 * network name is split into transport and IP version, the address into
 * host and port, the host is resolved, and the addresses are dialled in
 * the order the resolver gave them until one connects.
 */
module StackDialer {
  import opened Wrappers
  import opened Strconv
  import opened NetAddr
  import opened GoNet

  /** An address as `net.IP` holds it: 4 or 16 bytes. */
  type IP = seq<Octet>

  const IPv4ProtocolNumber: nat := 0x0800
  const IPv6ProtocolNumber: nat := 0x86dd

  /** The networks the dialer accepts. */
  const Networks: set<string> := {"tcp", "udp", "tcp4", "udp4", "tcp6", "udp6"}

  /** `splitNetwork`: the first three characters name the transport, the rest the IP version. */
  function SplitNetwork(network: string): Result<(string, string), Error> {
    if network in Networks then Ok((network[..3], network[3..])) else Err(UnknownNetwork(network))
  }

  /** `net.IP.To4`: a 4-byte address, or the last four bytes of an IPv4-mapped 16-byte one. */
  function To4(ip: IP): Option<IP> {
    if |ip| == 4 then Some(ip)
    else if |ip| == 16 && (forall k :: 0 <= k < 10 ==> ip[k] == 0) && ip[10] == 255 && ip[11] == 255
    then Some(ip[12..])
    else None
  }

  /** `ipProtocolNumber`. */
  function ProtocolNumber(ip: IP): nat {
    if To4(ip).Some? then IPv4ProtocolNumber
    else if |ip| == 16 then IPv6ProtocolNumber
    else 0
  }

  /** Go's `uint16(port)`: the low 16 bits of the parsed port. */
  function Uint16Of(port: int): nat {
    port % 0x1_0000
  }

  /**
   * The answer of the stack for one dial: `dial(transport, ip, port,
   * protocol)` stands for `gonet.DialContextTCP` and `gonet.DialUDP`.
   */
  type Dial = (string, IP, nat, nat) -> DialResult

  /** The `switch transport` of the loop body. */
  function Attempt(transport: string, ip: IP, port: nat, dial: Dial): DialResult {
    if transport == "tcp" || transport == "udp" then dial(transport, ip, port, ProtocolNumber(ip))
    else Err(Wrapped("invalid transport:", transport, Message("")))
  }

  /** The loop from `ips` on, with `errs` collected so far: the first connection, or all errors. */
  function TryIPs(transport: string, ips: seq<IP>, port: nat, dial: Dial, errs: seq<Error>)
    : (Option<Conn>, Option<Error>)
    decreases |ips|
  {
    if |ips| == 0 then
      if |errs| == 0 then (None, Some(Message("no suitable IP addresses found")))
      else (None, Join(errs))
    else
      match Attempt(transport, ips[0], port, dial)
      case Ok(c) => (Some(c), None)
      case Err(e) => TryIPs(transport, ips[1..], port, dial, errs + [e])
  }

  /** The resolver's answer to `LookupIP(ctx, network, host)`. */
  type Lookup = (string, string) -> Result<seq<IP>, Error>

  /** `Dialer.DialContext` as a function of the resolver's and the stack's answers. */
  function DialOutcome(network: string, address: string, lookup: Lookup, dial: Dial)
    : (Option<Conn>, Option<Error>)
  {
    match SplitNetwork(network)
    case Err(e) => (None, Some(e))
    case Ok(tv) =>
      match SplitHostPort(address)
      case Err(e) => (None, Some(Wrapped("invalid address", address, Addr(e))))
      case Ok(hp) =>
        match Atoi(hp.1)
        case Err(e) => (None, Some(Wrapped("invalid port", hp.1, Num(e))))
        case Ok(port) =>
          match lookup("ip" + tv.1, hp.0)
          case Err(e) => (None, Some(Wrapped("DNS lookup failed for", hp.0, e)))
          case Ok(ips) => TryIPs(tv.0, ips, Uint16Of(port), dial, [])
  }

  /**
   * `Dialer.DialContext`: `lookup` is the resolver, `dial` the network
   * stack; the result is the connection or the error, never both.
   */
  method DialContext(network: string, address: string, lookup: Lookup, dial: Dial)
    returns (conn: Option<Conn>, err: Option<Error>)
    ensures (conn, err) == DialOutcome(network, address, lookup, dial)
    ensures conn.Some? <==> err.None?
  {
    var split := SplitNetwork(network);
    if split.Err? {
      return None, Some(split.error);
    }
    var (transport, version) := split.value;
    var hp := SplitHostPort(address);
    if hp.Err? {
      return None, Some(Wrapped("invalid address", address, Addr(hp.error)));
    }
    var (host, portStr) := hp.value;
    var port := Atoi(portStr);
    if port.Err? {
      return None, Some(Wrapped("invalid port", portStr, Num(port.error)));
    }
    var ips := lookup("ip" + version, host);
    if ips.Err? {
      return None, Some(Wrapped("DNS lookup failed for", host, ips.error));
    }
    conn, err := TryAll(transport, ips.value, Uint16Of(port.value), dial);
    TryIPsOutcome(transport, ips.value, Uint16Of(port.value), dial, []);
  }

  /** The loop over the looked-up addresses: the first connection, or every error. */
  method TryAll(transport: string, ips: seq<IP>, port: nat, dial: Dial)
    returns (conn: Option<Conn>, err: Option<Error>)
    ensures (conn, err) == TryIPs(transport, ips, port, dial, [])
  {
    var errs: seq<Error> := [];
    var i := 0;
    while i < |ips|
      invariant 0 <= i <= |ips|
      invariant TryIPs(transport, ips, port, dial, []) == TryIPs(transport, ips[i..], port, dial, errs)
    {
      var ip := ips[i];
      var r: DialResult;
      if transport == "tcp" {
        r := dial("tcp", ip, port, ProtocolNumber(ip));
      } else if transport == "udp" {
        r := dial("udp", ip, port, ProtocolNumber(ip));
      } else {
        r := Err(Wrapped("invalid transport:", transport, Message("")));
      }
      assert r == Attempt(transport, ip, port, dial);
      assert ips[i..][1..] == ips[i + 1..];
      if r.Ok? {
        return Some(r.value), None;
      }
      errs := errs + [r.error];
      i := i + 1;
    }
    if |errs| == 0 {
      return None, Some(Message("no suitable IP addresses found"));
    }
    return None, Join(errs);
  }

  // ---------------------------------------------------------------- properties

  /** The loop ends with exactly one of a connection and an error. */
  lemma {:induction false} TryIPsOutcome(transport: string, ips: seq<IP>, port: nat, dial: Dial, errs: seq<Error>)
    ensures var r := TryIPs(transport, ips, port, dial, errs); r.0.Some? <==> r.1.None?
    decreases |ips|
  {
    if |ips| > 0 && Attempt(transport, ips[0], port, dial).Err? {
      TryIPsOutcome(transport, ips[1..], port, dial, errs + [Attempt(transport, ips[0], port, dial).error]);
    }
  }

  /**
   * Exactly the six networks split, into a transport of `tcp` or `udp` and a
   * version of "", "4" or "6" that together spell the network; any other
   * network is an unknown-network error naming it.
   */
  lemma SplitNetworkExact(network: string)
    ensures SplitNetwork(network).Ok? <==> network in Networks
    ensures SplitNetwork(network).Ok? ==>
      var (transport, version) := SplitNetwork(network).value;
      transport in {"tcp", "udp"} && version in {"", "4", "6"} && transport + version == network
    ensures SplitNetwork(network).Err? ==> SplitNetwork(network).error == UnknownNetwork(network)
  {
    if network in Networks {
      var t, v := network[..3], network[3..];
      assert t + v == network;
      if network == "tcp" || network == "udp" {
        assert t == network && v == "";
      } else if network == "tcp4" || network == "udp4" {
        assert v == "4" && (t == "tcp" || t == "udp");
      } else {
        assert v == "6" && (t == "tcp" || t == "udp");
      }
    }
  }

  /**
   * A 4-byte or IPv4-mapped address is dialled as IPv4, any other 16-byte
   * address as IPv6, and an address of any other length with protocol 0.
   */
  lemma ProtocolNumberCases(ip: IP)
    ensures ProtocolNumber(ip) == IPv4ProtocolNumber <==>
      (|ip| == 4 || (|ip| == 16 && ip[..12] == [0, 0, 0, 0, 0, 0, 0, 0, 0, 0, 255, 255]))
    ensures ProtocolNumber(ip) == IPv6ProtocolNumber <==>
      (|ip| == 16 && ip[..12] != [0, 0, 0, 0, 0, 0, 0, 0, 0, 0, 255, 255])
    ensures ProtocolNumber(ip) == 0 <==> |ip| != 4 && |ip| != 16
  {
    if |ip| == 16 {
      var mapped := [0, 0, 0, 0, 0, 0, 0, 0, 0, 0, 255, 255];
      if ip[..12] == mapped {
        assert forall k :: 0 <= k < 10 ==> ip[k] == ip[..12][k];
      }
    }
  }

  /**
   * A port that does not parse fails before the resolver is asked: the
   * outcome is the same whatever the resolver and the stack would answer.
   */
  lemma BadPortFailsBeforeLookup(network: string, address: string, lookup1: Lookup, lookup2: Lookup,
                                 dial1: Dial, dial2: Dial)
    requires SplitNetwork(network).Ok? && SplitHostPort(address).Ok?
    requires Atoi(SplitHostPort(address).value.1).Err?
    ensures DialOutcome(network, address, lookup1, dial1) == DialOutcome(network, address, lookup2, dial2)
    ensures DialOutcome(network, address, lookup1, dial1).1.value.context == "invalid port"
  {
  }

  /**
   * When the `k`-th address is the first that connects, its connection is
   * returned and no error.
   */
  lemma {:induction false} FirstSuccessWins(transport: string, ips: seq<IP>, port: nat, dial: Dial,
                                            errs: seq<Error>, k: nat)
    requires k < |ips| && Attempt(transport, ips[k], port, dial).Ok?
    requires forall j :: 0 <= j < k ==> Attempt(transport, ips[j], port, dial).Err?
    ensures TryIPs(transport, ips, port, dial, errs) == (Some(Attempt(transport, ips[k], port, dial).value), None)
    decreases k
  {
    if k > 0 {
      var e := Attempt(transport, ips[0], port, dial).error;
      assert forall j :: 0 <= j < k - 1 ==> ips[1..][j] == ips[j + 1];
      FirstSuccessWins(transport, ips[1..], port, dial, errs + [e], k - 1);
    }
  }

  /** The errors of the addresses that fail, in dialling order. */
  function Failures(transport: string, ips: seq<IP>, port: nat, dial: Dial): seq<Error> {
    if |ips| == 0 then []
    else
      var r := Attempt(transport, ips[0], port, dial);
      (if r.Err? then [r.error] else []) + Failures(transport, ips[1..], port, dial)
  }

  /**
   * When no address connects, the result is all their errors joined in
   * dialling order, one per address; with no address at all it is "no
   * suitable IP addresses found".
   */
  lemma {:induction false} AllFailJoined(transport: string, ips: seq<IP>, port: nat, dial: Dial, errs: seq<Error>)
    requires forall j :: 0 <= j < |ips| ==> Attempt(transport, ips[j], port, dial).Err?
    ensures |Failures(transport, ips, port, dial)| == |ips|
    ensures TryIPs(transport, ips, port, dial, errs)
         == if |errs| + |ips| == 0 then (None, Some(Message("no suitable IP addresses found")))
            else (None, Some(Joined(errs + Failures(transport, ips, port, dial))))
    decreases |ips|
  {
    if |ips| > 0 {
      var e := Attempt(transport, ips[0], port, dial).error;
      assert forall j :: 0 <= j < |ips| - 1 ==> ips[1..][j] == ips[j + 1];
      AllFailJoined(transport, ips[1..], port, dial, errs + [e]);
      assert errs + [e] + Failures(transport, ips[1..], port, dial)
          == errs + Failures(transport, ips, port, dial);
    } else {
      assert errs + [] == errs;
    }
  }

  /** Every address is dialled on the low 16 bits of the parsed port, with its own protocol number. */
  lemma DialsWrappedPort(transport: string, ip: IP, port: int, dial: Dial)
    requires transport == "tcp" || transport == "udp"
    ensures Attempt(transport, ip, Uint16Of(port), dial) == dial(transport, ip, Uint16Of(port), ProtocolNumber(ip))
    ensures Uint16Of(port) < 0x1_0000 && (0 <= port < 0x1_0000 ==> Uint16Of(port) == port)
    ensures Uint16Of(port + 0x1_0000) == Uint16Of(port)
  {
  }
}
