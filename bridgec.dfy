/**
 * The C half of the OpenConnect binding (pkg/openconnect/bridge.c): the
 * variadic progress callback that formats a message into a heap buffer and
 * hands it to Go, and the constructor that wires the Go callbacks into a new
 * library session.
 */
module CBridge {
  import opened Wrappers
  import opened OcEngine

  /**
   * What `go_progress_vargs` does, in order: allocations, the call of
   * `go_progress` (with the message as the C string the buffer holds) and
   * releases.
   */
  datatype HeapEvent =
    | Malloc(size: int)
    | GoProgress(context: nat, level: int, message: string)
    | Free

  /**
   * What `vsnprintf(NULL, 0, ...)` returns for the formatted text: its length,
   * or -1 when formatting fails or the length does not fit an `int`.
   */
  function MeasuredLength(formatted: Option<string>): (n: int)
    ensures IsInt32(n) && n >= -1
    ensures formatted.Some? && |formatted.value| < TwoTo31 ==> n == |formatted.value|
  {
    if formatted.Some? && |formatted.value| < TwoTo31 then |formatted.value| else -1
  }

  /**
   * `needed`: the measured length plus one, computed in `int`.  The overflow
   * at `INT_MAX` is undefined in C; it is taken here as a two's-complement wrap.
   */
  function Needed(formatted: Option<string>): (r: int)
    ensures r == Int32Of(MeasuredLength(formatted) + 1)
    ensures r > 0 <==> 0 <= MeasuredLength(formatted) < TwoTo31 - 1
  {
    Int32Of(MeasuredLength(formatted) + 1)
  }

  /** The C string a buffer holds: its characters up to the first NUL. */
  function CString(s: string): (r: string)
    ensures |r| <= |s| && '\0' !in r
  {
    if |s| == 0 || s[0] == '\0' then [] else [s[0]] + CString(s[1..])
  }

  /** The C string is the part of the buffer before its first NUL. */
  lemma {:induction false} CStringStopsAtFirstNul(s: string)
    ensures CString(s) <= s
    ensures |CString(s)| < |s| ==> s[|CString(s)|] == '\0'
  {
    if |s| > 0 && s[0] != '\0' {
      CStringStopsAtFirstNul(s[1..]);
    }
  }

  /** The events of `go_progress_vargs`, given the formatted text and whether `malloc` succeeds. */
  function ProgressEvents(context: nat, level: int, formatted: Option<string>, mallocOk: bool): seq<HeapEvent>
  {
    var needed := Needed(formatted);
    if needed <= 0 then []
    else if !mallocOk then [Malloc(needed)]
    else [Malloc(needed), GoProgress(context, level, CString(formatted.value)), Free]
  }

  /**
   * `go_progress_vargs`: measure, allocate `needed` bytes, format into them
   * (at most `needed - 1` characters and a NUL), pass the buffer to Go and
   * release it.  `formatted` is what the format string and its arguments
   * produce; `mallocOk` is the allocator's answer.
   */
  method ProgressVargs(context: nat, level: int, formatted: Option<string>, mallocOk: bool)
    returns (events: seq<HeapEvent>)
    ensures events == ProgressEvents(context, level, formatted, mallocOk)
  {
    var needed := Int32Of(MeasuredLength(formatted) + 1);
    if needed <= 0 {
      return [];
    }
    events := [Malloc(needed)];
    if !mallocOk {
      return;
    }
    var text := formatted.value;
    var buffer := new char[needed];
    // vsnprintf(buffer, needed, ...): the text, cut to needed - 1 characters, then NUL.
    var k := 0;
    while k < needed - 1 && k < |text|
      invariant 0 <= k <= needed - 1 && k <= |text|
      invariant buffer[..k] == text[..k]
    {
      buffer[k] := text[k];
      k := k + 1;
    }
    buffer[k] := '\0';
    assert k == |text| == needed - 1;
    assert buffer[..] == text + ['\0'];
    var message := ReadCString(buffer);
    TerminatedCString(text);
    events := events + [GoProgress(context, level, message), Free];
  }

  /** `C.GoString`: the characters of a NUL-terminated buffer before the first NUL. */
  method ReadCString(buffer: array<char>) returns (s: string)
    requires '\0' in buffer[..]
    ensures s == CString(buffer[..])
  {
    var k := 0;
    while k < buffer.Length && buffer[k] != '\0'
      invariant 0 <= k <= buffer.Length
      invariant '\0' !in buffer[..k]
      invariant CString(buffer[..]) == buffer[..k] + CString(buffer[k..])
    {
      CStringStep(buffer[..], k);
      k := k + 1;
    }
    assert k < buffer.Length;
    assert buffer[k..][0] == '\0';
    s := buffer[..k];
  }

  /** The terminating NUL ends the C string. */
  lemma {:induction false} TerminatedCString(s: string)
    ensures CString(s + ['\0']) == CString(s)
  {
    if |s| > 0 && s[0] != '\0' {
      assert (s + ['\0'])[1..] == s[1..] + ['\0'];
      TerminatedCString(s[1..]);
    }
  }

  lemma CStringStep(s: string, k: nat)
    requires k < |s| && s[k] != '\0'
    ensures s[..k] + CString(s[k..]) == s[..k + 1] + CString(s[k + 1..])
  {
    var t := s[k..];
    var rest := CString(s[k + 1..]);
    assert t[0] == s[k] && t[1..] == s[k + 1..];
    assert CString(t) == [s[k]] + rest;
    assert s[..k + 1] == s[..k] + [s[k]];
    assert s[..k] + ([s[k]] + rest) == (s[..k] + [s[k]]) + rest;
  }

  /** `go_vpninfo_new`: create the session with the Go callbacks, then set the browser callback on it. */
  method GoVpninfoNew(engine: Engine, useragent: string, privdata: nat) returns (ptr: nat)
    modifies engine
    ensures ptr == engine.alloc(old(engine.calls))
    ensures engine.calls == old(engine.calls)
      + [EngineCall(0, VpninfoNew(useragent, privdata)), EngineCall(ptr, SetExternalBrowserCallback)]
  {
    ptr := engine.New(useragent, privdata);
    var _ := engine.Call(EngineCall(ptr, SetExternalBrowserCallback));
  }

  // ---------------------------------------------------------------- properties

  /** A formatting error allocates nothing and calls nothing. */
  lemma FormatErrorDoesNothing(context: nat, level: int, mallocOk: bool)
    ensures ProgressEvents(context, level, None, mallocOk) == []
  {
  }

  /** A failed allocation calls nothing and releases nothing. */
  lemma MallocFailureCallsNothing(context: nat, level: int, formatted: Option<string>)
    ensures forall e :: e in ProgressEvents(context, level, formatted, false) ==> e.Malloc?
  {
  }

  /**
   * On success exactly the measured length plus one is allocated, Go is
   * called once with the text (up to its first NUL), and the buffer is
   * released after the call.
   */
  lemma SuccessCallsOnceThenFrees(context: nat, level: int, text: string)
    requires |text| < TwoTo31 - 1
    ensures ProgressEvents(context, level, Some(text), true)
      == [Malloc(|text| + 1), GoProgress(context, level, CString(text)), Free]
  {
    assert MeasuredLength(Some(text)) == |text|;
    assert Needed(Some(text)) == |text| + 1;
  }

  lemma {:induction false} NoNulWholeString(s: string)
    requires '\0' !in s
    ensures CString(s) == s
  {
    if |s| > 0 {
      NoNulWholeString(s[1..]);
    }
  }

  /** At most one call reaches Go, and every allocation is matched by a release unless `malloc` failed. */
  lemma AtMostOneCallback(context: nat, level: int, formatted: Option<string>, mallocOk: bool)
    ensures var ev := ProgressEvents(context, level, formatted, mallocOk);
      |ev| <= 3
      && (forall i, j :: 0 <= i < j < |ev| && ev[i].GoProgress? ==> !ev[j].GoProgress? && ev[j].Free?)
      && (mallocOk && |ev| > 0 ==> ev[|ev| - 1] == Free)
  {
  }

  /**
   * A text of exactly the largest `int` length overflows `needed`.  C leaves
   * that undefined; taking it as a two's-complement wrap to a negative
   * number, nothing is allocated and the message is dropped.
   */
  lemma LongestTextWraps(text: string, context: nat, level: int)
    requires |text| == TwoTo31 - 1
    ensures Needed(Some(text)) == -TwoTo31
    ensures ProgressEvents(context, level, Some(text), true) == []
  {
  }
}
