/**
 * VPN sessions of the OpenConnect binding (pkg/openconnect/vpninfo.go): the
 * process-wide table from library session address to Go session, session
 * creation, option parsing, release, and the mapping of library return codes
 * to errors.
 */
module OcSession {
  import opened Wrappers
  import opened OcEngine
  import opened CBridge
  import opened AuthForms

  const ProtocolAnyConnect: string := "anyconnect"
  const ProtocolGlobalProtect: string := "gp"

  /** `UserAgents`: the user agent each known protocol presents. */
  const UserAgents: map<string, string> :=
    map[ProtocolAnyConnect := "AnyConnect Darwin_i386 5.1.8.122", ProtocolGlobalProtect := "Global Protect"]

  /**
   * `Callbacks`: the certificate check, the form processor, whether a
   * progress handler is set, the browser opener (answering an error message
   * or none), and whether a reconnect handler is set.
   */
  datatype Callbacks = Callbacks(
    validatePeerCert: Option<string -> bool>,
    processAuthForm: Option<Processor>,
    progress: bool,
    externalBrowser: Option<string -> Option<string>>,
    reconnected: bool)

  const NoCallbacks: Callbacks := Callbacks(None, None, false, None, false)

  /** `Options`. */
  datatype Options = Options(userAgent: string, protocol: string, server: string, csd: string,
                             logLevel: int, forceDpd: int, allowInsecureCrypto: bool, callbacks: Callbacks)

  /** The errors of this package: a library code wrapped with what was being done, or a failed creation. */
  datatype OcError = OcError(context: string, errno: nat) | CreateFailed

  // ---------------------------------------------------------------- ocErrno

  /**
   * `syscall.Errno(-rc)`: the negation is taken in `C.int` (so the smallest
   * value stays itself) and then widened to a 64-bit unsigned word.
   */
  function ErrnoOf(rc: int): (e: nat)
    requires IsInt32(rc)
    ensures -TwoTo31 < rc <= 0 ==> e == -rc
    ensures rc > 0 ==> e == TwoTo64 - rc
    ensures rc == -TwoTo31 ==> e == TwoTo64 - TwoTo31
  {
    var neg := Int32Of(-rc);
    if neg >= 0 then neg else neg + TwoTo64
  }

  /** `ocErrno`: no error for 0, otherwise the code as an errno, labelled with `context`. */
  function OcErrno(context: string, rc: int): (r: Option<OcError>)
    requires IsInt32(rc)
    ensures r.None? <==> rc == 0
    ensures r.Some? ==> r.value == OcError(context, ErrnoOf(rc)) && r.value.errno > 0
  {
    if rc == 0 then None else Some(OcError(context, ErrnoOf(rc)))
  }

  // ---------------------------------------------------------------- ParseOpts, as steps

  /** One library call of `ParseOpts`; a checked call stops the sequence on a nonzero code. */
  datatype Step = Step(op: Op, context: string, checked: bool)

  /**
   * The positions of `ParseOpts`: 0 the log level, 1 the user agent, 2 the
   * protocol, 3 the server, 4 the CSD wrapper, 5 dead peer detection, 6
   * insecure crypto.  Whether the option at `k` is applied:
   */
  predicate OptionSet(opts: Options, k: nat) {
    if k == 0 then true
    else if k == 1 then opts.userAgent != ""
    else if k == 2 then opts.protocol != ""
    else if k == 3 then opts.server != ""
    else if k == 4 then opts.csd != ""
    else if k == 5 then opts.forceDpd > 0
    else if k == 6 then opts.allowInsecureCrypto
    else false
  }

  /** The call made for position `k` (`uid` is the process's user id, for the CSD wrapper). */
  function StepFor(opts: Options, uid: int, k: nat): Step {
    if k == 0 then Step(SetLogLevel(Int32Of(opts.logLevel)), "", false)
    else if k == 1 then Step(SetUserAgent(opts.userAgent), "set user agent", true)
    else if k == 2 then Step(SetProtocol(opts.protocol), "set protocol", true)
    else if k == 3 then Step(ParseUrl(opts.server), "parse URL", true)
    else if k == 4 then Step(SetupCsd(Uint32Of(uid), 1, opts.csd), "setup CSD", true)
    else if k == 5 then Step(SetDpd(Int32Of(opts.forceDpd)), "", false)
    else Step(SetAllowInsecureCrypto(1), "set allow-insecure-crypto", true)
  }

  /** The call `ParseOpts` makes at position `k`, if that option is set. */
  function StepAt(opts: Options, uid: int, k: nat): (r: seq<Step>)
    ensures |r| <= 1
  {
    if k < 7 && OptionSet(opts, k) then [StepFor(opts, uid, k)] else []
  }

  /** The calls `ParseOpts` makes from position `k` on, when none fails. */
  function PlanFrom(opts: Options, uid: int, k: nat): seq<Step>
    decreases 7 - k
  {
    if k >= 7 then [] else StepAt(opts, uid, k) + PlanFrom(opts, uid, k + 1)
  }

  /** Running steps on the session at `ptr`: the calls made and the first error. */
  function RunSteps(ptr: nat, steps: seq<Step>, calls: seq<EngineCall>, answer: (seq<EngineCall>, EngineCall) -> int)
    : (r: (seq<EngineCall>, Option<OcError>))
    ensures calls <= r.0 && |r.0| <= |calls| + |steps|
  {
    if |steps| == 0 then (calls, None)
    else
      var c := EngineCall(ptr, steps[0].op);
      var rc := Int32Of(answer(calls, c));
      if steps[0].checked && rc != 0 then (calls + [c], OcErrno(steps[0].context, rc))
      else RunSteps(ptr, steps[1..], calls + [c], answer)
  }

  /**
   * What `ParseOpts` does from position `k` on: skip an unset option, make
   * the call of a set one, and stop at a checked call the library refuses.
   */
  function ParseOptsFrom(ptr: nat, opts: Options, uid: int, k: nat, calls: seq<EngineCall>,
                         answer: (seq<EngineCall>, EngineCall) -> int): (r: (seq<EngineCall>, Option<OcError>))
    decreases 7 - k
  {
    if k >= 7 then (calls, None)
    else if StepAt(opts, uid, k) == [] then ParseOptsFrom(ptr, opts, uid, k + 1, calls, answer)
    else
      var s := StepAt(opts, uid, k)[0];
      var c := EngineCall(ptr, s.op);
      var rc := Int32Of(answer(calls, c));
      if s.checked && rc != 0 then (calls + [c], OcErrno(s.context, rc))
      else ParseOptsFrom(ptr, opts, uid, k + 1, calls + [c], answer)
  }

  /** Stage by stage is the same as running the plan's steps. */
  lemma {:induction false} ParseOptsRunsPlan(ptr: nat, opts: Options, uid: int, k: nat, calls: seq<EngineCall>,
                                            answer: (seq<EngineCall>, EngineCall) -> int)
    ensures ParseOptsFrom(ptr, opts, uid, k, calls, answer) == RunSteps(ptr, PlanFrom(opts, uid, k), calls, answer)
    decreases 7 - k
  {
    if k < 7 {
      var rest := PlanFrom(opts, uid, k + 1);
      assert PlanFrom(opts, uid, k) == StepAt(opts, uid, k) + rest;
      if StepAt(opts, uid, k) == [] {
        assert PlanFrom(opts, uid, k) == rest;
        ParseOptsRunsPlan(ptr, opts, uid, k + 1, calls, answer);
      } else {
        var s := StepAt(opts, uid, k)[0];
        var c := EngineCall(ptr, s.op);
        var rc := Int32Of(answer(calls, c));
        assert StepAt(opts, uid, k) == [s];
        RunStepsCons(ptr, s, rest, calls, answer);
        if s.checked && rc != 0 {
          assert ParseOptsFrom(ptr, opts, uid, k, calls, answer) == (calls + [c], OcErrno(s.context, rc));
        } else {
          assert ParseOptsFrom(ptr, opts, uid, k, calls, answer) == ParseOptsFrom(ptr, opts, uid, k + 1, calls + [c], answer);
          ParseOptsRunsPlan(ptr, opts, uid, k + 1, calls + [c], answer);
        }
      }
    }
  }

  /** One step, unfolded. */
  lemma RunStepsCons(ptr: nat, s: Step, rest: seq<Step>, calls: seq<EngineCall>, answer: (seq<EngineCall>, EngineCall) -> int)
    ensures var c := EngineCall(ptr, s.op);
      var rc := Int32Of(answer(calls, c));
      RunSteps(ptr, [s] + rest, calls, answer)
        == if s.checked && rc != 0 then (calls + [c], OcErrno(s.context, rc)) else RunSteps(ptr, rest, calls + [c], answer)
  {
    assert ([s] + rest)[1..] == rest;
  }

  // ---------------------------------------------------------------- sessions

  /** `VpnInfo`: the library session (0 once released), whether `done` is closed, the main loop's error. */
  class VpnInfo {
    var vpninfo: nat
    var doneClosed: bool
    var err: Option<OcError>
    var callbacks: Callbacks

    constructor (ptr: nat)
      ensures vpninfo == ptr && !doneClosed && err == None && callbacks == NoCallbacks
    {
      vpninfo := ptr;
      doneClosed := false;
      err := None;
      callbacks := NoCallbacks;
    }

    /**
     * `ParseOpts`: take the callbacks, set the log level, then apply each
     * option that is set, stopping at the first error.
     */
    method ParseOpts(opts: Options, uid: int, engine: Engine) returns (e: Option<OcError>)
      modifies this, engine
      ensures callbacks == opts.callbacks && vpninfo == old(vpninfo)
      ensures doneClosed == old(doneClosed) && err == old(err)
      ensures (engine.calls, e) == RunSteps(vpninfo, PlanFrom(opts, uid, 0), old(engine.calls), engine.answer)
    {
      callbacks := opts.callbacks;
      e := ApplyOptions(vpninfo, opts, uid, engine);
      ParseOptsRunsPlan(vpninfo, opts, uid, 0, old(engine.calls), engine.answer);
    }

    /**
     * `Free`: a released session is left alone; otherwise release the
     * library session, drop its table entry, forget the address and close
     * `done` unless it is closed already.
     */
    method Free(engine: Engine, handles: Handles)
      requires handles.Valid()
      modifies this, engine, handles
      ensures handles.Valid()
      ensures old(vpninfo) == 0 ==>
        (vpninfo == 0 && doneClosed == old(doneClosed)
         && engine.calls == old(engine.calls) && handles.table == old(handles.table))
      ensures old(vpninfo) != 0 ==>
        (vpninfo == 0 && doneClosed
         && engine.calls == old(engine.calls) + [EngineCall(old(vpninfo), VpninfoFree)]
         && handles.table == old(handles.table) - {old(vpninfo)})
      ensures err == old(err) && callbacks == old(callbacks)
    {
      if vpninfo == 0 {
        return;
      }
      var _ := engine.Call(EngineCall(vpninfo, VpninfoFree));
      handles.table := handles.table - {vpninfo};
      vpninfo := 0;
      if !doneClosed {
        doneClosed := true;
      }
    }
  }

  /** `SetLogLevel`: the code is not read. */
  method SetSessionLogLevel(ptr: nat, engine: Engine, level: int)
    modifies engine
    ensures engine.calls == old(engine.calls) + [EngineCall(ptr, Op.SetLogLevel(Int32Of(level)))]
  {
    var _ := engine.Call(EngineCall(ptr, Op.SetLogLevel(Int32Of(level))));
  }

  /** `SetDPD`: the code is not read. */
  method SetSessionDpd(ptr: nat, engine: Engine, minSeconds: int)
    modifies engine
    ensures engine.calls == old(engine.calls) + [EngineCall(ptr, Op.SetDpd(Int32Of(minSeconds)))]
  {
    var _ := engine.Call(EngineCall(ptr, Op.SetDpd(Int32Of(minSeconds))));
  }

  /** A setter whose code becomes the error (`SetUserAgent`, `SetProtocol`, `ParseURL`, `SetupCSD`, `SetAllowInsecureCrypto`). */
  method Checked(ptr: nat, engine: Engine, op: Op, context: string) returns (e: Option<OcError>)
    modifies engine
    ensures var c := EngineCall(ptr, op);
      engine.calls == old(engine.calls) + [c] && e == OcErrno(context, Int32Of(engine.answer(old(engine.calls), c)))
  {
    var rc := engine.Call(EngineCall(ptr, op));
    e := OcErrno(context, rc);
  }

  /** The library calls of `ParseOpts` on the session at `ptr`, in order, up to the first error. */
  method ApplyOptions(ptr: nat, opts: Options, uid: int, engine: Engine) returns (e: Option<OcError>)
    modifies engine
    ensures (engine.calls, e) == ParseOptsFrom(ptr, opts, uid, 0, old(engine.calls), engine.answer)
  {
    ghost var goal := ParseOptsFrom(ptr, opts, uid, 0, engine.calls, engine.answer);

    SetSessionLogLevel(ptr, engine, opts.logLevel);
    assert goal == ParseOptsFrom(ptr, opts, uid, 1, engine.calls, engine.answer);

    if opts.userAgent != "" {
      e := Checked(ptr, engine, SetUserAgent(opts.userAgent), "set user agent");
      if e.Some? { return; }
    }
    assert goal == ParseOptsFrom(ptr, opts, uid, 2, engine.calls, engine.answer);

    if opts.protocol != "" {
      e := Checked(ptr, engine, SetProtocol(opts.protocol), "set protocol");
      if e.Some? { return; }
    }
    assert goal == ParseOptsFrom(ptr, opts, uid, 3, engine.calls, engine.answer);

    if opts.server != "" {
      e := Checked(ptr, engine, ParseUrl(opts.server), "parse URL");
      if e.Some? { return; }
    }
    assert goal == ParseOptsFrom(ptr, opts, uid, 4, engine.calls, engine.answer);

    e := ApplyLaterOptions(ptr, opts, uid, engine);
  }

  /** The second half of `ParseOpts`: the CSD wrapper, dead peer detection and insecure crypto. */
  method ApplyLaterOptions(ptr: nat, opts: Options, uid: int, engine: Engine) returns (e: Option<OcError>)
    modifies engine
    ensures (engine.calls, e) == ParseOptsFrom(ptr, opts, uid, 4, old(engine.calls), engine.answer)
  {
    ghost var goal := ParseOptsFrom(ptr, opts, uid, 4, engine.calls, engine.answer);

    if opts.csd != "" {
      e := Checked(ptr, engine, SetupCsd(Uint32Of(uid), 1, opts.csd), "setup CSD");
      if e.Some? { return; }
    }
    assert goal == ParseOptsFrom(ptr, opts, uid, 5, engine.calls, engine.answer);

    if opts.forceDpd > 0 {
      SetSessionDpd(ptr, engine, opts.forceDpd);
    }
    assert goal == ParseOptsFrom(ptr, opts, uid, 6, engine.calls, engine.answer);

    if opts.allowInsecureCrypto {
      e := Checked(ptr, engine, SetAllowInsecureCrypto(1), "set allow-insecure-crypto");
      if e.Some? { return; }
    }
    assert goal == ParseOptsFrom(ptr, opts, uid, 7, engine.calls, engine.answer);
    e := None;
  }

  /**
   * The process-wide table from library session address to Go session.
   * Every entry is stored under its session's own address.
   */
  class Handles {
    var table: map<nat, VpnInfo>

    constructor ()
      ensures table == map[]
    {
      table := map[];
    }

    /** `handles.Store`: enter a live session under its own address. */
    method Store(v: VpnInfo)
      requires Valid() && v.vpninfo != 0
      modifies this
      ensures Valid() && table == old(table)[v.vpninfo := v]
    {
      table := table[v.vpninfo := v];
    }

    predicate Valid()
      reads this, table.Values
    {
      forall k :: k in table ==> k != 0 && table[k].vpninfo == k
    }
  }

  /** The user agent `New` presents: the given one, else the protocol's, else empty. */
  function UserAgentFor(opts: Options): (ua: string)
    ensures opts.userAgent != "" ==> ua == opts.userAgent
    ensures opts.userAgent == "" && opts.protocol in UserAgents ==> ua == UserAgents[opts.protocol]
    ensures opts.userAgent == "" && opts.protocol !in UserAgents ==> ua == ""
  {
    if opts.userAgent != "" then opts.userAgent
    else if opts.protocol in UserAgents then UserAgents[opts.protocol] else ""
  }

  /**
   * `New`: create the library session with no private data (so the library
   * hands the session's own address to callbacks), register it under its
   * address and apply the options; a failure releases it again.  `uid` is
   * the process's user id.
   */
  method New(opts: Options, uid: int, engine: Engine, handles: Handles) returns (v: VpnInfo?, e: Option<OcError>)
    requires handles.Valid()
    modifies engine, handles
    ensures handles.Valid()
    ensures var ua := UserAgentFor(opts);
      var ptr := engine.alloc(old(engine.calls));
      var created := old(engine.calls) + [EngineCall(0, VpninfoNew(ua, 0)), EngineCall(ptr, SetExternalBrowserCallback)];
      var (parsed, perr) := RunSteps(ptr, PlanFrom(opts.(userAgent := ua), uid, 0), created, engine.answer);
      (ptr == 0 ==> v == null && e == Some(CreateFailed) && handles.table == old(handles.table) && engine.calls == created)
      && (ptr != 0 && perr.Some? ==>
            (v == null && e == perr
             && handles.table == old(handles.table) - {ptr} && engine.calls == parsed + [EngineCall(ptr, VpninfoFree)]))
      && (ptr != 0 && perr.None? ==>
            (v != null && fresh(v) && e == None
             && handles.table == old(handles.table)[ptr := v] && engine.calls == parsed
             && v.vpninfo == ptr && v.callbacks == opts.callbacks && !v.doneClosed && v.err == None
             && handles.table[CallbackContext(ptr, 0)] == v))
  {
    var ua := UserAgentFor(opts);
    var ptr := GoVpninfoNew(engine, ua, 0);
    if ptr == 0 {
      return null, Some(CreateFailed);
    }
    var s := new VpnInfo(ptr);
    handles.Store(s);
    e := Configure(s, opts.(userAgent := ua), uid, engine, handles);
    if e.Some? {
      return null, e;
    }
    return s, None;
  }

  /** The part of `New` after the session is stored: apply the options, and release it on failure. */
  method Configure(s: VpnInfo, opts: Options, uid: int, engine: Engine, handles: Handles) returns (e: Option<OcError>)
    requires handles.Valid() && s.vpninfo != 0 && s.vpninfo in handles.table && handles.table[s.vpninfo] == s
    requires !s.doneClosed && s.err == None
    requires forall k :: k in handles.table && k != s.vpninfo ==> handles.table[k] != s
    modifies s, engine, handles
    ensures handles.Valid()
    ensures var (parsed, perr) := RunSteps(old(s.vpninfo), PlanFrom(opts, uid, 0), old(engine.calls), engine.answer);
      e == perr
      && (perr.Some? ==> handles.table == old(handles.table) - {old(s.vpninfo)}
                         && engine.calls == parsed + [EngineCall(old(s.vpninfo), VpninfoFree)])
      && (perr.None? ==> handles.table == old(handles.table) && engine.calls == parsed
                         && s.vpninfo == old(s.vpninfo) && s.callbacks == opts.callbacks && !s.doneClosed && s.err == None)
  {
    ghost var table := handles.table;
    e := s.ParseOpts(opts, uid, engine);
    assert handles.table == table;
    assert handles.Valid() by {
      forall k | k in handles.table ensures k != 0 && handles.table[k].vpninfo == k {
        if k != s.vpninfo {
          assert handles.table[k] != s;
        }
      }
    }
    if e.Some? {
      s.Free(engine, handles);
    }
  }

  // ---------------------------------------------------------------- properties

  /** A step is in the plan from `k` exactly when some position from `k` on produces it. */
  lemma {:induction false} InPlan(opts: Options, uid: int, k: nat, st: Step)
    requires k <= 7
    ensures st in PlanFrom(opts, uid, k) <==> exists j :: k <= j < 7 && StepAt(opts, uid, j) == [st]
    decreases 7 - k
  {
    if k < 7 {
      InPlan(opts, uid, k + 1, st);
      assert PlanFrom(opts, uid, k) == StepAt(opts, uid, k) + PlanFrom(opts, uid, k + 1);
      if st in StepAt(opts, uid, k) {
        assert StepAt(opts, uid, k) == [st];
      }
      if StepAt(opts, uid, k) == [st] {
        assert st in StepAt(opts, uid, k);
      }
    }
  }

  /** Different positions make different calls. */
  lemma StepsDistinct(opts: Options, uid: int, j: nat, k: nat)
    requires j < 7 && k < 7 && j != k
    ensures StepFor(opts, uid, j) != StepFor(opts, uid, k)
  {
  }

  /** `ParseOpts` calls the library for exactly the options that are set, the log level always and first. */
  lemma PlanHasOnlySetOptions(opts: Options, uid: int, k: nat)
    requires k < 7
    ensures StepFor(opts, uid, k) in PlanFrom(opts, uid, 0) <==> OptionSet(opts, k)
    ensures PlanFrom(opts, uid, 0)[0] == StepFor(opts, uid, 0)
  {
    var st := StepFor(opts, uid, k);
    InPlan(opts, uid, 0, st);
    if OptionSet(opts, k) {
      assert StepAt(opts, uid, k) == [st];
    } else {
      forall j | 0 <= j < 7 ensures StepAt(opts, uid, j) != [st] {
        if j != k {
          StepsDistinct(opts, uid, j, k);
        }
      }
    }
    assert PlanFrom(opts, uid, 0) == StepAt(opts, uid, 0) + PlanFrom(opts, uid, 1);
  }

  /**
   * Steps run in order and stop at the first checked step the library
   * refuses: the calls made are the steps' calls up to and including it,
   * and its code is the error.
   */
  lemma {:induction false} RunStepsStopsAtFirstError(ptr: nat, steps: seq<Step>, calls: seq<EngineCall>,
                                                     answer: (seq<EngineCall>, EngineCall) -> int)
    ensures var (out, e) := RunSteps(ptr, steps, calls, answer);
      var n := |out| - |calls|;
      0 <= n <= |steps|
      && (forall i :: 0 <= i < n ==> out[|calls| + i] == EngineCall(ptr, steps[i].op))
      && (e.None? ==> n == |steps|)
      && (e.Some? ==>
            (n > 0 && steps[n - 1].checked
             && e == OcErrno(steps[n - 1].context, Int32Of(answer(out[..|out| - 1], out[|out| - 1])))))
  {
    if |steps| > 0 {
      var c := EngineCall(ptr, steps[0].op);
      var rc := Int32Of(answer(calls, c));
      if !(steps[0].checked && rc != 0) {
        RunStepsStopsAtFirstError(ptr, steps[1..], calls + [c], answer);
        var (out, e) := RunSteps(ptr, steps[1..], calls + [c], answer);
        var n := |out| - |calls|;
        forall i | 0 <= i < n ensures out[|calls| + i] == EngineCall(ptr, steps[i].op) {
          if i > 0 {
            assert out[|calls + [c]| + (i - 1)] == EngineCall(ptr, steps[1..][i - 1].op);
          } else {
            assert (calls + [c])[|calls|] == c;
          }
        }
        if e.Some? {
          assert steps[1..][n - 2] == steps[n - 1];
        }
      } else {
        assert (calls + [c])[..|calls + [c]| - 1] == calls;
      }
    }
  }

  /** A checked step the library accepts is followed by the next one. */
  lemma AcceptedStepContinues(ptr: nat, s: Step, rest: seq<Step>, calls: seq<EngineCall>,
                              answer: (seq<EngineCall>, EngineCall) -> int)
    requires Int32Of(answer(calls, EngineCall(ptr, s.op))) == 0
    ensures RunSteps(ptr, [s] + rest, calls, answer) == RunSteps(ptr, rest, calls + [EngineCall(ptr, s.op)], answer)
  {
    RunStepsCons(ptr, s, rest, calls, answer);
  }

  /** Library codes are negated errnos: a negative code gives back its magnitude. */
  lemma NegativeCodeIsErrno(context: string, rc: int)
    requires -TwoTo31 < rc < 0
    ensures OcErrno(context, rc) == Some(OcError(context, -rc))
  {
  }
}
