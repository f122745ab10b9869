/**
 * The OpenConnect C library as the Go binding sees it.  The library itself
 * is not part of this model: it is an object that records every call made
 * into it, in order, and answers each with a return code that depends on
 * the calls made before (a parameter of the model).
 */
module OcEngine {
  /** The library entry points the binding calls, with their arguments. */
  datatype Op =
    | VpninfoNew(useragent: string, privdata: nat)
    | SetExternalBrowserCallback
    | VpninfoFree
    | SetLogLevel(level: int)
    | SetUserAgent(useragent: string)
    | SetProtocol(protocol: string)
    | ParseUrl(url: string)
    | SetupCsd(uid: int, silent: int, wrapper: string)
    | SetDpd(minSeconds: int)
    | SetAllowInsecureCrypto(allowed: int)

  /** A call on the session at address `ptr` (0 is the NULL pointer). */
  datatype EngineCall = EngineCall(ptr: nat, op: Op)

  class Engine {
    /** The return code of a call, given the calls made before it. */
    const answer: (seq<EngineCall>, EngineCall) -> int
    /** The address `openconnect_vpninfo_new` returns, given the calls made before (0 when it fails). */
    const alloc: seq<EngineCall> -> nat
    var calls: seq<EngineCall>

    constructor (answer: (seq<EngineCall>, EngineCall) -> int, alloc: seq<EngineCall> -> nat)
      ensures this.answer == answer && this.alloc == alloc && calls == []
    {
      this.answer := answer;
      this.alloc := alloc;
      calls := [];
    }

    /** A call, and its return code as a C `int`. */
    method Call(c: EngineCall) returns (rc: int)
      modifies this
      ensures calls == old(calls) + [c] && rc == Int32Of(answer(old(calls), c))
    {
      rc := Int32Of(answer(calls, c));
      calls := calls + [c];
    }

    /** `openconnect_vpninfo_new`: the address of the new session, or 0. */
    method New(useragent: string, privdata: nat) returns (ptr: nat)
      modifies this
      ensures calls == old(calls) + [EngineCall(0, VpninfoNew(useragent, privdata))]
      ensures ptr == alloc(old(calls))
    {
      ptr := alloc(calls);
      calls := calls + [EngineCall(0, VpninfoNew(useragent, privdata))];
    }
  }

  /**
   * The context the library hands to every callback of a session: the
   * private data given at creation, or the session itself when that is NULL.
   * This is the library's convention, assumed here; the binding only passes
   * `privdata` through.
   */
  function CallbackContext(ptr: nat, privdata: nat): nat
  {
    if privdata == 0 then ptr else privdata
  }

  // ---------------------------------------------------------------- C integers

  const TwoTo31: int := 0x8000_0000
  const TwoTo32: int := 0x1_0000_0000
  const TwoTo64: int := 0x1_0000_0000_0000_0000

  predicate IsInt32(x: int) {
    -TwoTo31 <= x < TwoTo31
  }

  /** A Go `int` converted to `C.int`: two's complement truncation to 32 bits. */
  function Int32Of(x: int): (r: int)
    ensures IsInt32(r)
    ensures IsInt32(x) ==> r == x
  {
    (x + TwoTo31) % TwoTo32 - TwoTo31
  }

  /** A Go `int` converted to an unsigned 32-bit C type. */
  function Uint32Of(x: int): (r: int)
    ensures 0 <= r < TwoTo32
    ensures 0 <= x < TwoTo32 ==> r == x
  {
    x % TwoTo32
  }

  /** Both conversions keep the value modulo 2^32: they only drop the high bits. */
  lemma ConversionsKeepLowBits(x: int)
    ensures (Int32Of(x) - x) % TwoTo32 == 0
    ensures (Uint32Of(x) - x) % TwoTo32 == 0
    ensures Uint32Of(Int32Of(x)) == Uint32Of(x)
  {
    var q := (x + TwoTo31) / TwoTo32;
    assert Int32Of(x) == x - q * TwoTo32;
    var p := x / TwoTo32;
    assert Uint32Of(x) == x - p * TwoTo32;
  }
}
