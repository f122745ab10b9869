/**
 * The environment decoder of pkg/env/env.go: `KEY=value` entries read into
 * a table, then copied into the tagged fields of a struct.  The struct is
 * described by its fields' metadata (what reflection tells the Go code) and
 * holds their current values; the code behind `encoding.TextUnmarshaler`
 * and `strconv.ParseFloat` is not part of this model and is passed in as
 * the parameter `foreign`.
 */
module EnvDecoder {
  import opened Wrappers
  import opened Text
  import opened Strconv

  // ---------------------------------------------------------------- the table

  /** One `environ` entry split at its first `=`, or nothing when it has none. */
  function EntryOf(e: string): (r: Option<(string, string)>)
    ensures r.Some? <==> '=' in e
    ensures r.Some? ==> '=' !in r.value.0 && e == r.value.0 + "=" + r.value.1
  {
    match IndexOf(e, '=')
    case None => None
    case Some(i) =>
      assert e == e[..i] + "=" + e[i + 1..];
      Some((e[..i], e[i + 1..]))
  }

  /** The table `NewDecoder` builds: every entry with an `=`, later entries overriding earlier ones. */
  function EnvOf(environ: seq<string>): map<string, string> {
    if |environ| == 0 then map[]
    else
      var env := EnvOf(environ[..|environ| - 1]);
      match EntryOf(environ[|environ| - 1])
      case None => env
      case Some((k, v)) => env[k := v]
  }

  /** `Decoder`: the table of variables. */
  class Decoder {
    var env: map<string, string>

    /** `NewDecoder`: reads the entries in order. */
    constructor (environ: seq<string>)
      ensures env == EnvOf(environ)
    {
      var table := map[];
      var i := 0;
      while i < |environ|
        invariant 0 <= i <= |environ|
        invariant table == EnvOf(environ[..i])
      {
        assert environ[..i + 1][..i] == environ[..i];
        var e := environ[i];
        var eq := IndexOf(e, '=');
        if eq.Some? {
          table := table[e[..eq.value] := e[eq.value + 1..]];
        }
        i := i + 1;
      }
      assert environ[..|environ|] == environ;
      env := table;
    }

    /**
     * `Unmarshal`: fails unless the target is a non-nil pointer to a
     * struct; otherwise decodes the struct's fields in order, stopping at the
     * first error.  Fields set before an error keep their new values.
     */
    method Unmarshal(isPointer: bool, target: Record?, foreign: (FieldInfo, string) -> Result<Value, string>)
      returns (err: Option<EnvError>)
      requires target != null ==> |target.values| == |target.fields|
      modifies target
      ensures !isPointer || target == null ==> err == Some(NotStructPointer) && (target != null ==> unchanged(target))
      ensures isPointer && target != null && !target.isStruct ==> err == Some(NotStruct) && unchanged(target)
      ensures isPointer && target != null && target.isStruct ==>
        (err, target.values) == DecodeFields(env, target.fields, old(target.values), 0, foreign)
    {
      if !isPointer || target == null {
        return Some(NotStructPointer);
      }
      if !target.isStruct {
        return Some(NotStruct);
      }
      var values := target.values;
      err, values := DecodeLoop(env, target.fields, values, foreign);
      target.values := values;
    }
  }

  // ---------------------------------------------------------------- the struct

  /** The sizes `reflect` reports for `int8` … `int64` (`int` and `uint` are 64 bits). */
  datatype Width = W8 | W16 | W32 | W64

  function Bits(w: Width): (r: nat)
    ensures r >= 8
  {
    match w
    case W8 => 8
    case W16 => 16
    case W32 => 32
    case W64 => 64
  }

  /** The `reflect.Kind` of a field, following pointers. */
  datatype Kind = StringKind | IntKind(w: Width) | UintKind(uw: Width) | BoolKind | FloatKind
                | PointerKind(elem: Kind) | OtherKind(name: string)

  /** What reflection says about one field. */
  datatype FieldInfo = FieldInfo(name: string, settable: bool, tag: string, kind: Kind, textUnmarshaler: bool)

  /** A field's value. */
  datatype Value = Zero | StrVal(s: string) | IntVal(i: int) | UintVal(u: nat) | BoolVal(b: bool) | ForeignVal(f: string)

  /** Why setting one field failed. */
  datatype SetError = NumFailed(e: NumError) | UnsupportedKind(kind: Kind) | ForeignFailed(msg: string)

  datatype EnvError =
    | NotStructPointer
    | NotStruct
    | UnknownOption(option: string, field: string)
    | RequiredMissing(key: string, field: string)
    | SetFailed(field: string, cause: SetError)

  /** The value `target` points at: whether it is a struct, its fields and their values. */
  class Record {
    const isStruct: bool
    const fields: seq<FieldInfo>
    var values: seq<Value>

    constructor (isStruct: bool, fields: seq<FieldInfo>, values: seq<Value>)
      ensures this.isStruct == isStruct && this.fields == fields && this.values == values
    {
      this.isStruct := isStruct;
      this.fields := fields;
      this.values := values;
    }
  }

  // ---------------------------------------------------------------- one field

  /**
   * The options after the key in an `env` tag: `Ok(required)` when every one
   * is "required" or empty, otherwise the first other one.
   */
  function TagOptions(opts: seq<string>): Result<bool, string> {
    if |opts| == 0 then Ok(false)
    else if opts[0] == "required" then
      (match TagOptions(opts[1..])
       case Ok(_) => Ok(true)
       case Err(o) => Err(o))
    else if opts[0] == "" then TagOptions(opts[1..])
    else Err(opts[0])
  }

  /** The option loop of `Unmarshal`. */
  method ReadOptions(opts: seq<string>) returns (r: Result<bool, string>)
    ensures r == TagOptions(opts)
  {
    var required := false;
    var i := 0;
    while i < |opts|
      invariant 0 <= i <= |opts|
      invariant TagOptions(opts) == (match TagOptions(opts[i..])
                                     case Ok(b) => Ok(required || b)
                                     case Err(o) => Err(o))
    {
      assert opts[i..][1..] == opts[i + 1..];
      if opts[i] == "required" {
        required := true;
      } else if opts[i] != "" {
        return Err(opts[i]);
      }
      i := i + 1;
    }
    return Ok(required);
  }

  /**
   * `unmarshal`: a field whose pointer is a `TextUnmarshaler` decodes
   * itself; otherwise the kind at the end of the field's pointers decides:
   * strings are taken as they are, integers, unsigned integers and booleans
   * are parsed, anything else is unsupported.  A field value stands for
   * what its pointers lead to; the pointers themselves are not modelled.
   */
  function Convert(f: FieldInfo, s: string, foreign: (FieldInfo, string) -> Result<Value, string>): (r: Result<Value, SetError>)
  {
    if f.textUnmarshaler then
      match foreign(f, s)
      case Ok(v) => Ok(v)
      case Err(m) => Err(ForeignFailed(m))
    else ConvertKind(f, f.kind, s, foreign)
  }

  /** The kind at the end of a chain of pointers. */
  function BaseKind(k: Kind): (r: Kind)
    ensures !r.PointerKind?
  {
    if k.PointerKind? then BaseKind(k.elem) else k
  }

  function ConvertKind(f: FieldInfo, k: Kind, s: string, foreign: (FieldInfo, string) -> Result<Value, string>): (r: Result<Value, SetError>)
  {
    match k
    case PointerKind(elem) => ConvertKind(f, elem, s, foreign)
    case StringKind => Ok(StrVal(s))
    case IntKind(w) =>
      (match ParseInt(s, Bits(w))
       case Ok(i) => Ok(IntVal(i))
       case Err(e) => Err(NumFailed(e)))
    case UintKind(w) =>
      (match ParseUint(s, Bits(w))
       case Ok(u) => Ok(UintVal(u))
       case Err(e) => Err(NumFailed(e)))
    case BoolKind =>
      (match ParseBool(s)
       case Ok(b) => Ok(BoolVal(b))
       case Err(e) => Err(NumFailed(e)))
    case FloatKind =>
      (match foreign(f, s)
       case Ok(v) => Ok(v)
       case Err(m) => Err(ForeignFailed(m)))
    case OtherKind(_) => Err(UnsupportedKind(k))
  }

  // ---------------------------------------------------------------- the fields

  /** The key of a tag: what comes before its first comma. */
  function KeyOf(tag: string): string {
    Split(tag, ',')[0]
  }

  /** The options of a tag: what follows its first comma, split at commas. */
  function OptionsOf(tag: string): seq<string> {
    Split(tag, ',')[1..]
  }

  /** Whether `Unmarshal` looks at the field at all. */
  predicate Tagged(f: FieldInfo) {
    f.settable && f.tag != ""
  }

  /**
   * The field loop of `Unmarshal` from field `i` on: the error it stops
   * with, if any, and the field values when it stops.
   */
  function DecodeFields(env: map<string, string>, fields: seq<FieldInfo>, values: seq<Value>, i: nat,
                        foreign: (FieldInfo, string) -> Result<Value, string>): (r: (Option<EnvError>, seq<Value>))
    requires |values| == |fields| && i <= |fields|
    ensures |r.1| == |values|
    decreases |fields| - i
  {
    if i == |fields| then (None, values)
    else
      var f := fields[i];
      if !Tagged(f) then DecodeFields(env, fields, values, i + 1, foreign)
      else match TagOptions(OptionsOf(f.tag))
        case Err(opt) => (Some(UnknownOption(opt, f.name)), values)
        case Ok(required) =>
          var key := KeyOf(f.tag);
          if key !in env then
            if required then (Some(RequiredMissing(key, f.name)), values)
            else DecodeFields(env, fields, values, i + 1, foreign)
          else match Convert(f, env[key], foreign)
            case Err(e) => (Some(SetFailed(f.name, e)), values)
            case Ok(v) => DecodeFields(env, fields, values[i := v], i + 1, foreign)
  }

  /** The field loop of `Unmarshal`, on the values of the target. */
  method DecodeLoop(env: map<string, string>, fields: seq<FieldInfo>, values: seq<Value>,
                    foreign: (FieldInfo, string) -> Result<Value, string>)
    returns (err: Option<EnvError>, out: seq<Value>)
    requires |values| == |fields|
    ensures (err, out) == DecodeFields(env, fields, values, 0, foreign)
  {
    out := values;
    var i := 0;
    while i < |fields|
      invariant 0 <= i <= |fields| == |out|
      invariant DecodeFields(env, fields, values, 0, foreign) == DecodeFields(env, fields, out, i, foreign)
    {
      var f := fields[i];
      if !f.settable || f.tag == "" {
        i := i + 1;
        continue;
      }
      var parts := Split(f.tag, ',');
      var key := parts[0];
      var required := ReadOptions(parts[1..]);
      if required.Err? {
        return Some(UnknownOption(required.error, f.name)), out;
      }
      if key !in env {
        if required.value {
          return Some(RequiredMissing(key, f.name)), out;
        }
        i := i + 1;
        continue;
      }
      var v := Convert(f, env[key], foreign);
      if v.Err? {
        return Some(SetFailed(f.name, v.error)), out;
      }
      out := out[i := v.value];
      i := i + 1;
    }
    return None, out;
  }

  // ---------------------------------------------------------------- properties

  /** An entry splits at its first `=`: the key has none, the value may. */
  lemma EntrySplitsAtFirstEquals(k: string, v: string)
    requires '=' !in k
    ensures EntryOf(k + "=" + v) == Some((k, v))
  {
    IndexAfterFreePrefix(k, '=', "=" + v);
    var e := k + "=" + v;
    assert e[..|k|] == k && e[|k| + 1..] == v;
  }

  /** A later entry for a key overrides every earlier one. */
  lemma LaterEntryOverrides(environ: seq<string>, k: string, v: string)
    requires '=' !in k
    ensures EnvOf(environ + [k + "=" + v]) == EnvOf(environ)[k := v]
  {
    EntrySplitsAtFirstEquals(k, v);
    assert (environ + [k + "=" + v])[..|environ|] == environ;
  }

  /** An entry without `=` is ignored. */
  lemma EntryWithoutEqualsIgnored(environ: seq<string>, e: string)
    requires '=' !in e
    ensures EnvOf(environ + [e]) == EnvOf(environ)
  {
    assert (environ + [e])[..|environ|] == environ;
  }

  /** Every key of the table comes from an entry, and holds that entry's value for the last such entry. */
  lemma {:induction false} EnvKeysFromEntries(environ: seq<string>, k: string)
    requires k in EnvOf(environ)
    ensures exists j :: 0 <= j < |environ| && EntryOf(environ[j]) == Some((k, EnvOf(environ)[k]))
    ensures '=' !in k
  {
    var n := |environ|;
    var init := environ[..n - 1];
    var last := EntryOf(environ[n - 1]);
    if last.Some? && last.value.0 == k {
      assert EntryOf(environ[n - 1]) == Some((k, EnvOf(environ)[k]));
    } else {
      EnvKeysFromEntries(init, k);
      var j :| 0 <= j < |init| && EntryOf(init[j]) == Some((k, EnvOf(init)[k]));
      assert environ[j] == init[j];
    }
  }

  /**
   * A tag's options are accepted exactly when each is "required" or empty;
   * the field is then required exactly when one of them is "required".  A
   * rejected tag is rejected for the first other option.
   */
  lemma {:induction false} TagOptionsMeaning(opts: seq<string>)
    ensures TagOptions(opts).Ok? <==> forall j :: 0 <= j < |opts| ==> opts[j] == "required" || opts[j] == ""
    ensures TagOptions(opts).Ok? ==> (TagOptions(opts).value <==> "required" in opts)
    ensures TagOptions(opts).Err? ==>
      exists j :: 0 <= j < |opts| && opts[j] == TagOptions(opts).error && opts[j] != "required" && opts[j] != ""
                  && forall l :: 0 <= l < j ==> opts[l] == "required" || opts[l] == ""
  {
    if |opts| > 0 {
      var rest := opts[1..];
      TagOptionsMeaning(rest);
      assert forall j :: 1 <= j < |opts| ==> opts[j] == rest[j - 1];
      if TagOptions(opts).Ok? && TagOptions(rest).Ok? {
        assert "required" in opts <==> opts[0] == "required" || "required" in rest;
      }
      if TagOptions(opts).Err? && TagOptions(rest).Err? && (opts[0] == "required" || opts[0] == "") {
        var j :| 0 <= j < |rest| && rest[j] == TagOptions(rest).error && rest[j] != "required" && rest[j] != ""
                 && forall l :: 0 <= l < j ==> rest[l] == "required" || rest[l] == "";
        assert opts[j + 1] == rest[j];
      }
    }
  }

  /**
   * The only fields the loop changes are settable, tagged fields whose key
   * is in the table; every other field keeps its value.
   */
  lemma {:induction false} OnlyPresentKeysSet(env: map<string, string>, fields: seq<FieldInfo>, values: seq<Value>, i: nat,
                                              foreign: (FieldInfo, string) -> Result<Value, string>)
    requires |values| == |fields| && i <= |fields|
    ensures forall j :: 0 <= j < |fields| && DecodeFields(env, fields, values, i, foreign).1[j] != values[j] ==>
      i <= j && Tagged(fields[j]) && KeyOf(fields[j].tag) in env
    decreases |fields| - i
  {
    if i < |fields| {
      var f := fields[i];
      if !Tagged(f) {
        OnlyPresentKeysSet(env, fields, values, i + 1, foreign);
      } else if TagOptions(OptionsOf(f.tag)).Ok? {
        var key := KeyOf(f.tag);
        if key !in env {
          if !TagOptions(OptionsOf(f.tag)).value {
            OnlyPresentKeysSet(env, fields, values, i + 1, foreign);
          }
        } else if Convert(f, env[key], foreign).Ok? {
          var v := Convert(f, env[key], foreign).value;
          OnlyPresentKeysSet(env, fields, values[i := v], i + 1, foreign);
        }
      }
    }
  }

  /**
   * When the loop finishes without an error, every tagged field from `i` on
   * had acceptable options, a required key was present, and each field whose
   * key was present holds the value converted from the table's entry.
   */
  lemma {:induction false} SuccessMeansEveryFieldDecoded(env: map<string, string>, fields: seq<FieldInfo>, values: seq<Value>,
                                                        i: nat, foreign: (FieldInfo, string) -> Result<Value, string>)
    requires |values| == |fields| && i <= |fields|
    requires DecodeFields(env, fields, values, i, foreign).0.None?
    ensures forall j :: i <= j < |fields| && Tagged(fields[j]) ==>
      && TagOptions(OptionsOf(fields[j].tag)).Ok?
      && (TagOptions(OptionsOf(fields[j].tag)).value ==> KeyOf(fields[j].tag) in env)
      && (KeyOf(fields[j].tag) in env ==>
            Convert(fields[j], env[KeyOf(fields[j].tag)], foreign) == Ok(DecodeFields(env, fields, values, i, foreign).1[j]))
    decreases |fields| - i
  {
    if i < |fields| {
      var f := fields[i];
      var r := DecodeFields(env, fields, values, i, foreign);
      if !Tagged(f) {
        SuccessMeansEveryFieldDecoded(env, fields, values, i + 1, foreign);
      } else {
        var key := KeyOf(f.tag);
        if key !in env {
          SuccessMeansEveryFieldDecoded(env, fields, values, i + 1, foreign);
        } else {
          var v := Convert(f, env[key], foreign).value;
          SuccessMeansEveryFieldDecoded(env, fields, values[i := v], i + 1, foreign);
          OnlyPresentKeysSet(env, fields, values[i := v], i + 1, foreign);
          assert r.1[i] == v;
        }
      }
    }
  }

  /**
   * Pointers change nothing but allocation: a field converts as its base
   * kind does, and the base kinds the code does not handle are rejected,
   * naming that base kind.
   */
  lemma {:induction false} ConvertFollowsPointers(f: FieldInfo, k: Kind, s: string, foreign: (FieldInfo, string) -> Result<Value, string>)
    ensures ConvertKind(f, k, s, foreign) == ConvertKind(f, BaseKind(k), s, foreign)
    ensures BaseKind(k).OtherKind? <==> ConvertKind(f, k, s, foreign) == Err(UnsupportedKind(BaseKind(k)))
    ensures BaseKind(k).StringKind? ==> ConvertKind(f, k, s, foreign) == Ok(StrVal(s))
  {
    if k.PointerKind? {
      ConvertFollowsPointers(f, k.elem, s, foreign);
    }
  }

  /** A variable written by `strconv.FormatInt` sets an integer field of a width the value fits. */
  lemma IntFieldReadsFormattedValue(f: FieldInfo, w: Width, i: int, foreign: (FieldInfo, string) -> Result<Value, string>)
    requires !f.textUnmarshaler && f.kind == IntKind(w)
    requires -(Pow2(Bits(w) - 1) as int) <= i < Pow2(Bits(w) - 1)
    ensures Convert(f, FormatInt(i), foreign) == Ok(IntVal(i))
  {
    ParseFormatInt(i, Bits(w));
  }

  /** A variable written by `strconv.FormatUint` sets an unsigned field of a width the value fits. */
  lemma UintFieldReadsFormattedValue(f: FieldInfo, w: Width, n: nat, foreign: (FieldInfo, string) -> Result<Value, string>)
    requires !f.textUnmarshaler && f.kind == UintKind(w)
    requires n < Pow2(Bits(w))
    ensures Convert(f, FormatNat(n), foreign) == Ok(UintVal(n))
  {
    ParseFormatUint(n, Bits(w));
  }

  /**
   * A required key that is missing makes `Unmarshal` fail: the loop stops
   * with an error at that field or at an earlier one, and when it reaches
   * the field, it stops there with that error and sets nothing more.
   */
  lemma {:induction false} MissingRequiredKeyFails(env: map<string, string>, fields: seq<FieldInfo>, values: seq<Value>, j: nat, i: nat,
                                                   foreign: (FieldInfo, string) -> Result<Value, string>)
    requires |values| == |fields| && j <= i < |fields|
    requires Tagged(fields[i]) && TagOptions(OptionsOf(fields[i].tag)) == Ok(true) && KeyOf(fields[i].tag) !in env
    ensures DecodeFields(env, fields, values, j, foreign).0.Some?
    ensures j == i ==> DecodeFields(env, fields, values, j, foreign) == (Some(RequiredMissing(KeyOf(fields[i].tag), fields[i].name)), values)
    decreases i - j
  {
    if j < i {
      var f := fields[j];
      if !Tagged(f) {
        MissingRequiredKeyFails(env, fields, values, j + 1, i, foreign);
      } else {
        match TagOptions(OptionsOf(f.tag))
        case Err(_) =>
        case Ok(required) =>
          var key := KeyOf(f.tag);
          if key !in env {
            if !required {
              MissingRequiredKeyFails(env, fields, values, j + 1, i, foreign);
            }
          } else {
            match Convert(f, env[key], foreign)
            case Err(_) =>
            case Ok(v) =>
              MissingRequiredKeyFails(env, fields, values[j := v], j + 1, i, foreign);
          }
      }
    }
  }
}
