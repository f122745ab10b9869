/**
 * The suffix-rewriting dialer (dialer/rewriting.go): a host ending in
 * `"." + suffix` is dialled as the part before that suffix, on the same
 * port, through the wrapped dialer.
 */
module RewritingDialer {
  import opened Wrappers
  import opened Text
  import opened NetAddr
  import opened GoNet

  /** The wrapped dialer: its answer for a network and an address. */
  type Dial = (string, string) -> DialResult

  /**
   * The address handed on to the wrapped dialer, or the error returned
   * without dialling.
   */
  function RewriteAddress(suffix: string, address: string): Result<string, Error> {
    match SplitHostPort(address)
    case Err(e) => Err(Addr(e))
    case Ok(hp) =>
      match CutSuffix(hp.0, "." + suffix)
      case Some(subdomain) =>
        if subdomain == "" then Err(Message("Invalid hostname"))
        else Ok(JoinHostPort(subdomain, hp.1))
      case None => Ok(address)
  }

  /** `RewritingDialer.DialContext`. */
  function DialContext(suffix: string, dial: Dial, network: string, address: string): DialResult {
    match RewriteAddress(suffix, address)
    case Err(e) => Err(e)
    case Ok(rewritten) => dial(network, rewritten)
  }

  // ---------------------------------------------------------------- properties

  /** A split host holds no bracket, and a split port no colon and no bracket. */
  lemma SplitPartsAreClean(hp: string)
    requires SplitHostPort(hp).Ok?
    ensures var (host, port) := SplitHostPort(hp).value;
      '[' !in host && ']' !in host && ':' !in port && '[' !in port && ']' !in port
  {
    var i := LastIndexOf(hp, ':').value;
    var bracketed := hp[0] == '[';
    var j := if bracketed then 1 else 0;
    var k := if bracketed then IndexOf(hp, ']').value + 1 else 0;
    var (host, port) := SplitHostPort(hp).value;
    assert port == hp[i + 1..];
    assert forall c :: c in port ==> c in hp[j..] && c in hp[k..] by {
      forall c | c in port ensures c in hp[j..] && c in hp[k..] {
        var n :| 0 <= n < |port| && port[n] == c;
        assert hp[j..][i + 1 + n - j] == c;
        assert hp[k..][i + 1 + n - k] == c;
      }
    }
    if bracketed {
      var end := IndexOf(hp, ']').value;
      assert host == hp[1..end];
      assert forall c :: c in host ==> c in hp[1..] by {
        forall c | c in host ensures c in hp[1..] {
          var n :| 0 <= n < |host| && host[n] == c;
          assert hp[1..][n] == c;
        }
      }
      assert ']' !in hp[..end];
      assert forall n :: 0 <= n < |host| ==> host[n] == hp[..end][n + 1];
    } else {
      assert host == hp[..i];
      assert forall c :: c in host ==> c in hp[0..] by {
        forall c | c in host ensures c in hp[0..] {
          var n :| 0 <= n < |host| && host[n] == c;
          assert hp[0..][n] == c;
        }
      }
    }
  }

  /**
   * The rewrite keeps the port: a host ending in `"." + suffix` comes out
   * as the part before it, any other host as it was, and only a host that
   * is exactly `"." + suffix` is refused, as "Invalid hostname".
   */
  lemma RewriteKeepsPort(suffix: string, address: string)
    requires SplitHostPort(address).Ok?
    ensures var (host, port) := SplitHostPort(address).value;
      var tail := "." + suffix;
      var r := RewriteAddress(suffix, address);
      (r.Err? <==> host == tail)
      && (r.Err? ==> r.error == Message("Invalid hostname"))
      && (r.Ok? && HasSuffix(host, tail) ==> SplitHostPort(r.value) == Ok((host[..|host| - |tail|], port)))
      && (!HasSuffix(host, tail) ==> r == Ok(address))
  {
    var (host, port) := SplitHostPort(address).value;
    var tail := "." + suffix;
    SplitPartsAreClean(address);
    if HasSuffix(host, tail) {
      var sub := host[..|host| - |tail|];
      assert host == sub + tail by { assert host[|host| - |tail|..] == tail; }
      if sub != "" {
        assert forall c :: c in sub ==> c in host;
        SplitJoinHostPort(sub, port);
      } else {
        assert host == tail;
      }
    }
  }

  /** The address `sub.suffix:port` is dialled as `sub:port`. */
  lemma StripsSuffix(sub: string, suffix: string, port: string)
    requires sub != ""
    requires '[' !in sub + "." + suffix && ']' !in sub + "." + suffix
    requires ':' !in port && '[' !in port && ']' !in port
    ensures RewriteAddress(suffix, JoinHostPort(sub + "." + suffix, port)) == Ok(JoinHostPort(sub, port))
  {
    var host := sub + "." + suffix;
    SplitJoinHostPort(host, port);
    assert host == sub + ("." + suffix);
    assert host[|host| - |"." + suffix|..] == "." + suffix;
    assert host[..|host| - |"." + suffix|] == sub;
  }

  /**
   * An address that does not split, or whose host is only the suffix, is
   * refused without asking the wrapped dialer: the outcome is the same
   * whatever it would answer.
   */
  lemma RefusedWithoutDialling(suffix: string, dial1: Dial, dial2: Dial, network: string, address: string)
    requires SplitHostPort(address).Err? || SplitHostPort(address).value.0 == "." + suffix
    ensures DialContext(suffix, dial1, network, address) == DialContext(suffix, dial2, network, address)
    ensures DialContext(suffix, dial1, network, address).Err?
  {
    if SplitHostPort(address).Ok? {
      RewriteKeepsPort(suffix, address);
    }
  }
}
