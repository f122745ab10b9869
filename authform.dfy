/**
 * Authentication forms as the Go side of the OpenConnect binding sees them
 * (pkg/openconnect/form.go), and the form processors of
 * base/src/pkg/openconnect/processor.go.  A form option keeps a handle on
 * the engine's option; `SetValue` writes through that handle, so the values
 * written are state of the form, kept by handle.
 */
module AuthForms {
  import opened Wrappers
  import opened Text
  import opened Strconv

  /** `FormResult`: the engine's `OC_FORM_RESULT_*` codes. */
  const ResultErr: int := -1
  const ResultOk: int := 0
  const ResultCancelled: int := 1
  const ResultNewgroup: int := 2

  /** `FormOptionType`: the engine's `OC_FORM_OPT_*` option kinds. */
  const OptText: int := 1
  const OptPassword: int := 2
  const OptSelect: int := 3
  const OptHidden: int := 4
  const OptToken: int := 5
  const OptSsoToken: int := 6
  const OptSsoUser: int := 7

  datatype FormChoice = FormChoice(name: string, text: string)

  /** `FormOption`; `handle` names the engine option it was read from. */
  datatype FormOption = FormOption(handle: nat, name: string, text: string, optType: int, choices: seq<FormChoice>)

  /** The fields of `AuthForm`. */
  datatype AuthFormData = AuthFormData(banner: string, message: string, error: string,
                                       authGroup: Option<FormOption>, options: seq<FormOption>)

  /** A form together with the values written through its options' handles. */
  class AuthForm {
    const data: AuthFormData
    var written: map<nat, string>

    constructor (data: AuthFormData)
      ensures this.data == data && written == map[]
    {
      this.data := data;
      written := map[];
    }

    /** `FormOption.SetValue`: the engine option behind `opt` now holds `val`. */
    method SetValue(opt: FormOption, val: string)
      modifies this
      ensures written == old(written)[opt.handle := val]
    {
      written := written[opt.handle := val];
    }
  }

  /** The type name the generated `String` method gives, `FormOptionType(n)` for an unnamed one. */
  function TypeName(t: int): (r: string)
    ensures 1 <= t <= 7 ==> |r| > 0 && r[0] != 'F'
    ensures !(1 <= t <= 7) ==> HasPrefix(r, "FormOptionType(")
  {
    if t == OptText then "Text"
    else if t == OptPassword then "Password"
    else if t == OptSelect then "Select"
    else if t == OptHidden then "Hidden"
    else if t == OptToken then "Token"
    else if t == OptSsoToken then "SSOToken"
    else if t == OptSsoUser then "SSOUser"
    else "FormOptionType(" + FormatInt(t) + ")"
  }

  /** One call of a `LoggerFunc`: the message and its string attributes. */
  datatype LogRecord = LogRecord(msg: string, attrs: seq<(string, string)>)

  /**
   * A `FormProcessor`: the credentials processor, a logger (whose calls are
   * what it produces), an aggregate of processors, or a plain function of
   * the form.  Such a function receives the form by pointer, so besides its
   * result it may write values through the options' handles: it answers the
   * result and the values the form holds afterwards.
   */
  datatype Processor =
    | Credentials(username: string, password: string)
    | Logger
    | Aggregate(ps: seq<Processor>)
    | Fn(f: (AuthFormData, map<nat, string>) -> (int, map<nat, string>))

  // ---------------------------------------------------------------- specification

  /** Whether the credentials processor fills `opt` with the username. */
  predicate TakesUsername(opt: FormOption) {
    opt.optType == OptText && HasPrefix(ToLower(opt.name), "user")
  }

  /** The values after the credentials processor has gone over `opts`. */
  function CredentialsWritten(opts: seq<FormOption>, username: string, password: string, w: map<nat, string>): map<nat, string>
  {
    if |opts| == 0 then w
    else
      var w0 := CredentialsWritten(opts[..|opts| - 1], username, password, w);
      var opt := opts[|opts| - 1];
      if TakesUsername(opt) then w0[opt.handle := username]
      else if opt.optType == OptPassword then w0[opt.handle := password]
      else w0
  }

  /** The calls the logger makes for the options `opts`. */
  function OptionRecords(opts: seq<FormOption>): seq<LogRecord> {
    if |opts| == 0 then []
    else
      var opt := opts[|opts| - 1];
      OptionRecords(opts[..|opts| - 1]) + [OptionRecord(opt)] + ChoiceRecords(opt.choices)
  }

  /** The call that names an option, its label and its type. */
  function OptionRecord(opt: FormOption): LogRecord {
    LogRecord("option", [("name", opt.name), ("label", opt.text), ("type", TypeName(opt.optType))])
  }

  function ChoiceRecords(cs: seq<FormChoice>): (r: seq<LogRecord>)
    ensures |r| == |cs|
  {
    if |cs| == 0 then []
    else ChoiceRecords(cs[..|cs| - 1]) + [LogRecord("choice", [("name", cs[|cs| - 1].name), ("label", cs[|cs| - 1].text)])]
  }

  /** The calls the logger makes for a form: a heading, then each option and its choices. */
  function FormRecords(d: AuthFormData): seq<LogRecord> {
    [LogRecord("Processing Auth Form", [("banner", d.banner), ("message", d.message), ("error", d.error)])]
    + OptionRecords(d.options)
  }

  /** What running `p` on a form gives: the result, the values written and the log. */
  function Run(p: Processor, d: AuthFormData, w: map<nat, string>, log: seq<LogRecord>): (r: (int, map<nat, string>, seq<LogRecord>))
    decreases p, 1
  {
    match p
    case Credentials(u, pw) => (ResultOk, CredentialsWritten(d.options, u, pw, w), log)
    case Logger => (ResultOk, w, log + FormRecords(d))
    case Aggregate(ps) => RunAll(p, ps, 0, d, w, log)
    case Fn(f) => var (res, w1) := f(d, w); (res, w1, log)
  }

  /** The aggregate from processor `i` on: the first result that is not `Ok`, or `Ok`. */
  function RunAll(p: Processor, ps: seq<Processor>, i: nat, d: AuthFormData, w: map<nat, string>, log: seq<LogRecord>)
    : (r: (int, map<nat, string>, seq<LogRecord>))
    requires p == Aggregate(ps) && i <= |ps|
    decreases p, 0, |ps| - i
  {
    if i == |ps| then (ResultOk, w, log)
    else
      assert ps[i] in ps;
      var (res, w1, log1) := Run(ps[i], d, w, log);
      if res != ResultOk then (res, w1, log1) else RunAll(p, ps, i + 1, d, w1, log1)
  }

  // ---------------------------------------------------------------- the processors

  /** `FormProcessor.ProcessForm` for each kind of processor; `log` holds the logger's calls. */
  method Process(p: Processor, form: AuthForm, log: seq<LogRecord>) returns (res: int, logOut: seq<LogRecord>)
    modifies form
    ensures (res, form.written, logOut) == Run(p, form.data, old(form.written), log)
    decreases p, 1
  {
    match p
    case Credentials(u, pw) =>
      ProcessCredentials(u, pw, form);
      return ResultOk, log;
    case Logger =>
      var records := ProcessLogger(form.data);
      return ResultOk, log + records;
    case Aggregate(ps) =>
      res, logOut := ProcessAggregate(p, ps, form, log);
    case Fn(f) =>
      var out := f(form.data, form.written);
      form.written := out.1;
      return out.0, log;
  }

  /** `CredentialsProcessor.ProcessForm`. */
  method ProcessCredentials(username: string, password: string, form: AuthForm)
    modifies form
    ensures form.written == CredentialsWritten(form.data.options, username, password, old(form.written))
  {
    var opts := form.data.options;
    var i := 0;
    while i < |opts|
      invariant 0 <= i <= |opts|
      invariant form.written == CredentialsWritten(opts[..i], username, password, old(form.written))
    {
      assert opts[..i + 1][..i] == opts[..i];
      var opt := opts[i];
      if opt.optType == OptText {
        if HasPrefix(ToLower(opt.name), "user") {
          form.SetValue(opt, username);
        }
      } else if opt.optType == OptPassword {
        form.SetValue(opt, password);
      }
      i := i + 1;
    }
    assert opts[..|opts|] == opts;
  }

  /** `LoggerFunc.ProcessForm`: the calls it makes. */
  method ProcessLogger(d: AuthFormData) returns (records: seq<LogRecord>)
    ensures records == FormRecords(d)
  {
    var head := LogRecord("Processing Auth Form", [("banner", d.banner), ("message", d.message), ("error", d.error)]);
    records := LogOptions([head], d.options);
  }

  /** The outer loop of `LoggerFunc.ProcessForm`: each option's call, then its choices' calls. */
  method LogOptions(records: seq<LogRecord>, opts: seq<FormOption>) returns (out: seq<LogRecord>)
    ensures out == records + OptionRecords(opts)
  {
    out := records;
    var i := 0;
    while i < |opts|
      invariant 0 <= i <= |opts|
      invariant out == records + OptionRecords(opts[..i])
    {
      var opt := opts[i];
      OptionRecordsStep(opts, i);
      out := out + [OptionRecord(opt)];
      out := LogChoices(out, opt.choices);
      i := i + 1;
    }
    assert opts[..|opts|] == opts;
  }

  /** One more option adds its record and its choices' records. */
  lemma OptionRecordsStep(opts: seq<FormOption>, i: nat)
    requires i < |opts|
    ensures OptionRecords(opts[..i + 1]) == OptionRecords(opts[..i]) + [OptionRecord(opts[i])] + ChoiceRecords(opts[i].choices)
  {
    assert opts[..i + 1][..i] == opts[..i];
  }

  /** The inner loop of `LoggerFunc.ProcessForm`: one call per choice, appended in order. */
  method LogChoices(records: seq<LogRecord>, cs: seq<FormChoice>) returns (out: seq<LogRecord>)
    ensures out == records + ChoiceRecords(cs)
  {
    out := records;
    var j := 0;
    while j < |cs|
      invariant 0 <= j <= |cs|
      invariant out == records + ChoiceRecords(cs[..j])
    {
      assert cs[..j + 1][..j] == cs[..j];
      out := out + [LogRecord("choice", [("name", cs[j].name), ("label", cs[j].text)])];
      j := j + 1;
    }
    assert cs[..|cs|] == cs;
  }

  /** `AggregateProcessor.ProcessForm`. */
  method ProcessAggregate(p: Processor, ps: seq<Processor>, form: AuthForm, log: seq<LogRecord>)
    returns (res: int, logOut: seq<LogRecord>)
    requires p == Aggregate(ps)
    modifies form
    ensures (res, form.written, logOut) == RunAll(p, ps, 0, form.data, old(form.written), log)
    decreases p, 0
  {
    logOut := log;
    var i := 0;
    while i < |ps|
      invariant 0 <= i <= |ps|
      invariant RunAll(p, ps, 0, form.data, old(form.written), log) == RunAll(p, ps, i, form.data, form.written, logOut)
    {
      assert ps[i] in ps;
      var r;
      r, logOut := Process(ps[i], form, logOut);
      if r != ResultOk {
        return r, logOut;
      }
      i := i + 1;
    }
    return ResultOk, logOut;
  }

  // ---------------------------------------------------------------- properties

  /** The aggregate stops at the first processor that does not answer `Ok`; later ones do not run. */
  lemma AggregateStopsAtFirstFailure(ps: seq<Processor>, d: AuthFormData, w: map<nat, string>, log: seq<LogRecord>)
    requires |ps| > 0 && Run(ps[0], d, w, log).0 != ResultOk
    ensures Run(Aggregate(ps), d, w, log) == Run(ps[0], d, w, log)
  {
  }

  /** Processors that answer `Ok` pass their effects on to the next one. */
  lemma AggregateContinuesAfterOk(ps: seq<Processor>, d: AuthFormData, w: map<nat, string>, log: seq<LogRecord>)
    requires |ps| > 0 && Run(ps[0], d, w, log).0 == ResultOk
    ensures var (_, w1, log1) := Run(ps[0], d, w, log);
      Run(Aggregate(ps), d, w, log) == Run(Aggregate(ps[1..]), d, w1, log1)
  {
    var (_, w1, log1) := Run(ps[0], d, w, log);
    ShiftedAggregate(ps, 1, d, w1, log1);
  }

  /** Running an aggregate from processor `i` is running the aggregate of the processors from `i`. */
  lemma {:induction false} ShiftedAggregate(ps: seq<Processor>, i: nat, d: AuthFormData, w: map<nat, string>, log: seq<LogRecord>)
    requires i <= |ps|
    ensures RunAll(Aggregate(ps), ps, i, d, w, log) == RunAll(Aggregate(ps[i..]), ps[i..], 0, d, w, log)
    decreases |ps| - i
  {
    if i < |ps| {
      assert ps[i..][0] == ps[i];
      var (res, w1, log1) := Run(ps[i], d, w, log);
      if res == ResultOk {
        ShiftedAggregate(ps, i + 1, d, w1, log1);
        ShiftedAggregate(ps[i..], 1, d, w1, log1);
        assert ps[i..][1..] == ps[i + 1..];
      }
    }
  }

  /** An empty aggregate answers `Ok` and changes nothing. */
  lemma EmptyAggregateIsOk(d: AuthFormData, w: map<nat, string>, log: seq<LogRecord>)
    ensures Run(Aggregate([]), d, w, log) == (ResultOk, w, log)
  {
  }

  /** The credentials processor always answers `Ok`, logs nothing, and writes only to username and password options. */
  lemma {:induction false} CredentialsWritesOnlyCredentials(opts: seq<FormOption>, u: string, pw: string, w: map<nat, string>, h: nat)
    requires forall i, j :: 0 <= i < j < |opts| ==> opts[i].handle != opts[j].handle
    ensures var w1 := CredentialsWritten(opts, u, pw, w);
      (h in w1 <==> h in w || exists j :: 0 <= j < |opts| && opts[j].handle == h && (TakesUsername(opts[j]) || opts[j].optType == OptPassword))
      && (forall j :: 0 <= j < |opts| && opts[j].handle == h && TakesUsername(opts[j]) ==> w1[h] == u)
      && (forall j :: 0 <= j < |opts| && opts[j].handle == h && opts[j].optType == OptPassword ==> w1[h] == pw)
      && ((forall j :: 0 <= j < |opts| ==> opts[j].handle != h) ==> (h in w ==> w1[h] == w[h]))
  {
    if |opts| > 0 {
      var init := opts[..|opts| - 1];
      CredentialsWritesOnlyCredentials(init, u, pw, w, h);
      var last := opts[|opts| - 1];
      forall j | 0 <= j < |init| ensures init[j] == opts[j] && init[j].handle != last.handle {
      }
      if last.handle != h {
        assert forall j :: 0 <= j < |opts| && opts[j].handle == h ==> j < |init|;
      }
    }
  }

  /** The logger always answers `Ok` and writes no value. */
  lemma LoggerOnlyLogs(d: AuthFormData, w: map<nat, string>, log: seq<LogRecord>)
    ensures Run(Logger, d, w, log) == (ResultOk, w, log + FormRecords(d))
    ensures |FormRecords(d)| >= 1 + |d.options|
  {
    OptionRecordsLength(d.options);
  }

  lemma {:induction false} OptionRecordsLength(opts: seq<FormOption>)
    ensures |OptionRecords(opts)| >= |opts|
  {
    if |opts| > 0 {
      OptionRecordsLength(opts[..|opts| - 1]);
    }
  }

  /** A function processor answers exactly what its function answers, keeps what it wrote, and logs nothing. */
  lemma FnAnswersItsResult(f: (AuthFormData, map<nat, string>) -> (int, map<nat, string>), d: AuthFormData, w: map<nat, string>, log: seq<LogRecord>)
    ensures Run(Fn(f), d, w, log) == (f(d, w).0, f(d, w).1, log)
  {
  }

  /**
   * A logger ahead of a function processor: the form is logged first, then
   * the function decides the result and the values, as if it ran alone.
   */
  lemma LoggedFn(f: (AuthFormData, map<nat, string>) -> (int, map<nat, string>), d: AuthFormData, w: map<nat, string>, log: seq<LogRecord>)
    ensures Run(Aggregate([Logger, Fn(f)]), d, w, log) == (f(d, w).0, f(d, w).1, log + FormRecords(d))
  {
    var ps := [Logger, Fn(f)];
    var log1 := log + FormRecords(d);
    AggregateContinuesAfterOk(ps, d, w, log);
    assert ps[1..] == [Fn(f)];
    var rest := Aggregate([Fn(f)]);
    assert Run(rest, d, w, log1) == RunAll(rest, [Fn(f)], 0, d, w, log1);
    assert RunAll(rest, [Fn(f)], 1, d, f(d, w).1, log1) == (ResultOk, f(d, w).1, log1);
  }

  /**
   * The credentials processor written as a function processor behaves as the
   * credentials processor itself: a function may write values just as it does.
   */
  lemma CredentialsAsFn(u: string, pw: string, d: AuthFormData, w: map<nat, string>, log: seq<LogRecord>)
    ensures Run(Fn((d0: AuthFormData, w0: map<nat, string>) => (ResultOk, CredentialsWritten(d0.options, u, pw, w0))), d, w, log)
         == Run(Credentials(u, pw), d, w, log)
  {
  }
}
