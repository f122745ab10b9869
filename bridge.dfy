/**
 * The Go trampolines the OpenConnect library calls
 * (base/src/pkg/openconnect/bridge.go).  Each looks its session up in the
 * handle table by the context pointer, answers the library's return code
 * when the session or its callback is missing, and otherwise converts the
 * C arguments and hands them to the callback.
 */
module OcBridge {
  import opened Wrappers
  import opened AuthForms
  import opened OcEngine
  import opened CBridge
  import opened OcSession

  /** A C `char *`: `None` is NULL. */
  type CStr = Option<string>

  /** `C.GoString`: empty for NULL, otherwise the characters before the first NUL. */
  function GoString(s: CStr): (r: string)
    ensures s.None? ==> r == ""
    ensures s.Some? ==> |r| <= |s.value| && '\0' !in r
  {
    if s.None? then "" else CString(s.value)
  }

  /** A C string without NUL characters reaches Go whole. */
  lemma GoStringWhole(s: string)
    requires '\0' !in s
    ensures GoString(Some(s)) == s
  {
    NoNulWholeString(s);
  }

  /** `struct oc_choice`. */
  datatype CChoice = CChoice(name: CStr, text: CStr)

  /**
   * `struct oc_form_opt` at address `ptr`; for a select option (and the
   * authgroup selection) `choices` are its `nr_choices` choices.
   */
  datatype COpt = COpt(ptr: nat, name: CStr, text: CStr, optType: int, flags: bv32, choices: seq<CChoice>)

  /** `struct oc_auth_form`, with its linked list of options as a sequence in list order. */
  datatype CForm = CForm(banner: CStr, message: CStr, error: CStr, authgroup: Option<COpt>, opts: seq<COpt>)

  /** `OC_FORM_OPT_IGNORE`. */
  const IgnoreFlag: bv32 := 1

  predicate Ignored(o: COpt) {
    o.flags & IgnoreFlag != 0
  }

  function ChoiceOf(c: CChoice): FormChoice {
    FormChoice(GoString(c.name), GoString(c.text))
  }

  /** The choices of a selection, converted one by one, in order. */
  function ChoicesOf(cs: seq<CChoice>): (r: seq<FormChoice>)
    ensures |r| == |cs| && forall i :: 0 <= i < |cs| ==> r[i] == ChoiceOf(cs[i])
  {
    seq(|cs|, i requires 0 <= i < |cs| => ChoiceOf(cs[i]))
  }

  /** The Go option for a kept engine option: its handle, strings and type, and its choices when it is a select. */
  function OptionOf(o: COpt): FormOption {
    FormOption(o.ptr, GoString(o.name), GoString(o.text), o.optType,
               if o.optType == OptSelect then ChoicesOf(o.choices) else [])
  }

  /** The options of the Go form: the engine's options without the ignored ones, in list order. */
  function KeptOptions(opts: seq<COpt>): seq<FormOption> {
    if |opts| == 0 then []
    else KeptOptions(opts[..|opts| - 1]) + (if Ignored(opts[|opts| - 1]) then [] else [OptionOf(opts[|opts| - 1])])
  }

  /** The authgroup selection as a Go option: no handle, no type, all its choices. */
  function AuthGroupOf(g: COpt): FormOption {
    FormOption(0, GoString(g.name), GoString(g.text), 0, ChoicesOf(g.choices))
  }

  /** The Go form for an engine form. */
  function FormOf(f: CForm): AuthFormData {
    AuthFormData(GoString(f.banner), GoString(f.message), GoString(f.error),
                 if f.authgroup.Some? then Some(AuthGroupOf(f.authgroup.value)) else None,
                 KeptOptions(f.opts))
  }

  // ---------------------------------------------------------------- conversion

  /** `make([]FormChoice, nr_choices)` filled from the C array. */
  method ConvertChoices(cs: seq<CChoice>) returns (r: seq<FormChoice>)
    ensures r == ChoicesOf(cs)
  {
    var out := new FormChoice[|cs|](_ => FormChoice("", ""));
    var i := 0;
    while i < |cs|
      invariant 0 <= i <= |cs|
      invariant forall j :: 0 <= j < i ==> out[j] == ChoiceOf(cs[j])
    {
      out[i] := ChoiceOf(cs[i]);
      i := i + 1;
    }
    r := out[..];
  }

  /** The option loop of `go_process_auth_form`: skip ignored options, convert the rest, append. */
  method ConvertOptions(opts: seq<COpt>) returns (r: seq<FormOption>)
    ensures r == KeptOptions(opts)
  {
    r := [];
    var i := 0;
    while i < |opts|
      invariant 0 <= i <= |opts|
      invariant r == KeptOptions(opts[..i])
    {
      assert opts[..i + 1][..i] == opts[..i];
      var o := opts[i];
      if o.flags & IgnoreFlag != 0 {
        i := i + 1;
        continue;
      }
      var choices: seq<FormChoice> := [];
      if o.optType == OptSelect {
        choices := ConvertChoices(o.choices);
      }
      r := r + [FormOption(o.ptr, GoString(o.name), GoString(o.text), o.optType, choices)];
      i := i + 1;
    }
    assert opts[..|opts|] == opts;
  }

  /** The conversion part of `go_process_auth_form`. */
  method ConvertForm(f: CForm) returns (d: AuthFormData)
    ensures d == FormOf(f)
  {
    var group: Option<FormOption> := None;
    if f.authgroup.Some? {
      var g := f.authgroup.value;
      var choices := ConvertChoices(g.choices);
      group := Some(FormOption(0, GoString(g.name), GoString(g.text), 0, choices));
    }
    var options := ConvertOptions(f.opts);
    d := AuthFormData(GoString(f.banner), GoString(f.message), GoString(f.error), group, options);
  }

  // ---------------------------------------------------------------- trampolines

  /** `go_validate_peer_cert`: 0 accepts the certificate, 1 rejects it. */
  method ValidatePeerCert(handles: Handles, context: nat, cert: CStr) returns (rc: int)
    ensures rc == 0 || rc == 1
    ensures rc == 0 <==>
      (context in handles.table
       && handles.table[context].callbacks.validatePeerCert.Some?
       && handles.table[context].callbacks.validatePeerCert.value(GoString(cert)))
  {
    if context !in handles.table || handles.table[context].callbacks.validatePeerCert.None? {
      return 1;
    }
    var check := handles.table[context].callbacks.validatePeerCert.value;
    if check(GoString(cert)) {
      return 0;
    }
    return 1;
  }

  /**
   * `go_process_auth_form`: `OC_FORM_RESULT_ERR` without a session or a
   * form callback; otherwise the form is converted, processed, and the
   * callback's result, converted to a C `int`, is the answer.  `form` is the
   * Go form the callback saw and `log` the logger calls it made.
   */
  method ProcessAuthForm(handles: Handles, context: nat, cform: CForm)
    returns (rc: int, form: AuthForm?, log: seq<LogRecord>)
    ensures context !in handles.table || handles.table[context].callbacks.processAuthForm.None?
      ==> rc == ResultErr && form == null && log == []
    ensures context in handles.table && handles.table[context].callbacks.processAuthForm.Some?
      ==> form != null && form.data == FormOf(cform)
          && var (res, written, calls) := Run(handles.table[context].callbacks.processAuthForm.value, FormOf(cform), map[], []);
             rc == Int32Of(res) && form.written == written && log == calls
  {
    if context !in handles.table || handles.table[context].callbacks.processAuthForm.None? {
      return ResultErr, null, [];
    }
    var p := handles.table[context].callbacks.processAuthForm.value;
    var d := ConvertForm(cform);
    form := new AuthForm(d);
    var res;
    res, log := Process(p, form, []);
    rc := Int32Of(res);
  }

  /** `go_progress`: the call made to the session's progress handler, if it has one. */
  method Progress(handles: Handles, context: nat, level: int, message: CStr) returns (call: Option<(int, string)>)
    ensures call.Some? <==> context in handles.table && handles.table[context].callbacks.progress
    ensures call.Some? ==> call.value == (level, GoString(message))
  {
    if context !in handles.table || !handles.table[context].callbacks.progress {
      return None;
    }
    return Some((level, GoString(message)));
  }

  /** `go_external_browser_callback`: 0 when the browser opener reports no error, else 1. */
  method ExternalBrowser(handles: Handles, context: nat, uri: CStr) returns (rc: int)
    ensures rc == 0 || rc == 1
    ensures rc == 0 <==>
      (context in handles.table
       && handles.table[context].callbacks.externalBrowser.Some?
       && handles.table[context].callbacks.externalBrowser.value(GoString(uri)).None?)
  {
    if context !in handles.table || handles.table[context].callbacks.externalBrowser.None? {
      return 1;
    }
    var open := handles.table[context].callbacks.externalBrowser.value;
    if open(GoString(uri)).Some? {
      return 1;
    }
    return 0;
  }

  /** `go_reconnected_handler`: whether the session's reconnect handler is called. */
  method Reconnected(handles: Handles, context: nat) returns (called: bool)
    ensures called <==> context in handles.table && handles.table[context].callbacks.reconnected
  {
    called := context in handles.table && handles.table[context].callbacks.reconnected;
  }

  /**
   * `go_mainloop_result`: for a known session, record the main loop's code
   * as its error and release it; an unknown session is ignored.
   */
  method MainloopResult(handles: Handles, engine: Engine, ptr: nat, result: int)
    requires IsInt32(result) && handles.Valid()
    modifies handles, engine, handles.table.Values
    ensures handles.Valid()
    ensures ptr !in old(handles.table) ==>
      handles.table == old(handles.table) && engine.calls == old(engine.calls)
    ensures ptr in old(handles.table) ==>
      var v := old(handles.table)[ptr];
      v.err == OcErrno("main loop", result) && v.vpninfo == 0 && v.doneClosed
      && handles.table == old(handles.table) - {ptr}
      && engine.calls == old(engine.calls) + [EngineCall(ptr, VpninfoFree)]
  {
    if ptr !in handles.table {
      return;
    }
    var v := handles.table[ptr];
    v.err := OcErrno("main loop", result);
    v.Free(engine, handles);
  }

  // ---------------------------------------------------------------- properties

  /** Ignored options are dropped; the others keep their order: converting a concatenation concatenates. */
  lemma {:induction false} KeptOptionsAppend(a: seq<COpt>, b: seq<COpt>)
    ensures KeptOptions(a + b) == KeptOptions(a) + KeptOptions(b)
    decreases |b|
  {
    if |b| == 0 {
      assert a + b == a;
    } else {
      var b0 := b[..|b| - 1];
      assert (a + b)[..|a + b| - 1] == a + b0;
      KeptOptionsAppend(a, b0);
    }
  }

  /** One engine option gives its Go option, unless it is ignored. */
  lemma KeptSingle(o: COpt)
    ensures KeptOptions([o]) == if Ignored(o) then [] else [OptionOf(o)]
  {
    assert [o][..0] == [];
  }

  /** Every Go option comes from a kept engine option, and every kept engine option is there. */
  lemma KeptOptionsMembers(opts: seq<COpt>, x: FormOption)
    ensures x in KeptOptions(opts) <==> exists j :: 0 <= j < |opts| && !Ignored(opts[j]) && OptionOf(opts[j]) == x
  {
    if x in KeptOptions(opts) {
      KeptFrom(opts, x);
    }
    if exists j :: 0 <= j < |opts| && !Ignored(opts[j]) && OptionOf(opts[j]) == x {
      var j :| 0 <= j < |opts| && !Ignored(opts[j]) && OptionOf(opts[j]) == x;
      KeptHas(opts, j);
    }
  }

  /** A Go option comes from some kept engine option. */
  lemma {:induction false} KeptFrom(opts: seq<COpt>, x: FormOption)
    requires x in KeptOptions(opts)
    ensures exists j :: 0 <= j < |opts| && !Ignored(opts[j]) && OptionOf(opts[j]) == x
  {
    var init, last := opts[..|opts| - 1], opts[|opts| - 1];
    if x in KeptOptions(init) {
      KeptFrom(init, x);
      var j :| 0 <= j < |init| && !Ignored(init[j]) && OptionOf(init[j]) == x;
      assert opts[j] == init[j];
    } else {
      assert !Ignored(opts[|opts| - 1]) && OptionOf(opts[|opts| - 1]) == x;
    }
  }

  /** A kept engine option is converted into the Go form. */
  lemma {:induction false} KeptHas(opts: seq<COpt>, j: nat)
    requires j < |opts| && !Ignored(opts[j])
    ensures OptionOf(opts[j]) in KeptOptions(opts)
  {
    var init := opts[..|opts| - 1];
    if j < |init| {
      KeptHas(init, j);
      assert init[j] == opts[j];
    }
  }

  /** A select option and the authgroup carry exactly their `nr_choices` choices, in order; other options none. */
  lemma SelectChoicesExact(o: COpt, g: COpt)
    ensures o.optType == OptSelect ==>
      |OptionOf(o).choices| == |o.choices| && forall i :: 0 <= i < |o.choices| ==> OptionOf(o).choices[i] == ChoiceOf(o.choices[i])
    ensures o.optType != OptSelect ==> OptionOf(o).choices == []
    ensures |AuthGroupOf(g).choices| == |g.choices|
  {
  }
}
