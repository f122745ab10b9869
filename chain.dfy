/**
 * The ordered dialer chain (dialer/chain.go): each dialer is tried in turn,
 * after checking that the context is still live, until one connects.
 */
module DialChain {
  import opened Wrappers
  import opened GoNet

  /** A dialer of the chain: its answer for a network and an address. */
  type Dialer = (string, string) -> DialResult

  /**
   * The context's `Err()` at each check: `ctxErr(n)` is what the check before
   * the `n`-th try sees.
   */
  type ContextErr = nat -> Option<Error>

  /** What a call returns, and how many dialers it asked. */
  datatype Outcome = Outcome(conn: Option<Conn>, err: Option<Error>, tried: nat)

  /** The loop from dialer `i` on, with the errors `errs` collected so far. */
  function TryFrom(chain: seq<Dialer>, ctxErr: ContextErr, network: string, address: string,
                   i: nat, errs: seq<Error>): Outcome
    requires i <= |chain|
    decreases |chain| - i
  {
    if i == |chain| then Outcome(None, Join(errs), i)
    else if ctxErr(i).Some? then Outcome(None, ctxErr(i), i)
    else
      match chain[i](network, address)
      case Ok(c) => Outcome(Some(c), None, i + 1)
      case Err(e) => TryFrom(chain, ctxErr, network, address, i + 1, errs + [e])
  }

  /** `Chain.DialContext`: the connection or the error, and the number of dialers asked. */
  method DialContext(chain: seq<Dialer>, ctxErr: ContextErr, network: string, address: string)
    returns (conn: Option<Conn>, err: Option<Error>, tried: nat)
    ensures Outcome(conn, err, tried) == TryFrom(chain, ctxErr, network, address, 0, [])
  {
    var errs: seq<Error> := [];
    tried := 0;
    while tried < |chain|
      invariant tried <= |chain|
      invariant TryFrom(chain, ctxErr, network, address, 0, []) == TryFrom(chain, ctxErr, network, address, tried, errs)
    {
      var e := ctxErr(tried);
      if e.Some? {
        return None, e, tried;
      }
      var r := chain[tried](network, address);
      if r.Ok? {
        return Some(r.value), None, tried + 1;
      }
      errs := errs + [r.error];
      tried := tried + 1;
    }
    return None, Join(errs), tried;
  }

  // ---------------------------------------------------------------- properties

  /** The errors of the dialers before `k`, in order, for dialers that all fail. */
  function ErrorsBefore(chain: seq<Dialer>, network: string, address: string, k: nat): seq<Error>
    requires k <= |chain|
    requires forall j :: 0 <= j < k ==> chain[j](network, address).Err?
  {
    if k == 0 then [] else ErrorsBefore(chain, network, address, k - 1) + [chain[k - 1](network, address).error]
  }

  /**
   * Before the first cancelled check or the first success, the loop has
   * collected exactly the errors of the dialers it asked, in order.
   */
  lemma {:induction false} ReachesTry(chain: seq<Dialer>, ctxErr: ContextErr, network: string, address: string, k: nat)
    requires k <= |chain|
    requires forall j :: 0 <= j < k ==> ctxErr(j).None? && chain[j](network, address).Err?
    ensures TryFrom(chain, ctxErr, network, address, 0, [])
         == TryFrom(chain, ctxErr, network, address, k, ErrorsBefore(chain, network, address, k))
    decreases k
  {
    if k > 0 {
      ReachesTry(chain, ctxErr, network, address, k - 1);
    }
  }

  /**
   * When dialer `k` is the first to connect and the context stays live until
   * then, its connection is returned, with no error, after asking `k + 1`
   * dialers.
   */
  lemma FirstSuccessReturned(chain: seq<Dialer>, ctxErr: ContextErr, network: string, address: string, k: nat)
    requires k < |chain| && ctxErr(k).None? && chain[k](network, address).Ok?
    requires forall j :: 0 <= j < k ==> ctxErr(j).None? && chain[j](network, address).Err?
    ensures TryFrom(chain, ctxErr, network, address, 0, [])
         == Outcome(Some(chain[k](network, address).value), None, k + 1)
  {
    ReachesTry(chain, ctxErr, network, address, k);
  }

  /**
   * A context found cancelled before try `k` ends the call with the
   * context's error: dialer `k` and those after it are never asked.
   */
  lemma CancelledStops(chain: seq<Dialer>, ctxErr: ContextErr, network: string, address: string, k: nat)
    requires k < |chain| && ctxErr(k).Some?
    requires forall j :: 0 <= j < k ==> ctxErr(j).None? && chain[j](network, address).Err?
    ensures TryFrom(chain, ctxErr, network, address, 0, []) == Outcome(None, ctxErr(k), k)
  {
    ReachesTry(chain, ctxErr, network, address, k);
  }

  /**
   * When every dialer fails under a live context, all of them are asked and
   * their errors are returned joined in try order; an empty chain returns
   * neither a connection nor an error.
   */
  lemma AllFailJoined(chain: seq<Dialer>, ctxErr: ContextErr, network: string, address: string)
    requires forall j :: 0 <= j < |chain| ==> ctxErr(j).None? && chain[j](network, address).Err?
    ensures var errs := ErrorsBefore(chain, network, address, |chain|);
      |errs| == |chain|
      && (forall j :: 0 <= j < |chain| ==> errs[j] == chain[j](network, address).error)
      && TryFrom(chain, ctxErr, network, address, 0, []) == Outcome(None, Join(errs), |chain|)
    ensures |chain| == 0 ==> TryFrom(chain, ctxErr, network, address, 0, []) == Outcome(None, None, 0)
  {
    ReachesTry(chain, ctxErr, network, address, |chain|);
    ErrorsInOrder(chain, network, address, |chain|);
  }

  lemma {:induction false} ErrorsInOrder(chain: seq<Dialer>, network: string, address: string, k: nat)
    requires k <= |chain|
    requires forall j :: 0 <= j < k ==> chain[j](network, address).Err?
    ensures var errs := ErrorsBefore(chain, network, address, k);
      |errs| == k && forall j :: 0 <= j < k ==> errs[j] == chain[j](network, address).error
    decreases k
  {
    if k > 0 {
      ErrorsInOrder(chain, network, address, k - 1);
    }
  }
}
