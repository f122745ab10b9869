/**
 * The CSD hostscan serialiser (openconnect/hostscan/internal/marshaler): a
 * Go value is written as `path="text";` lines, one per scalar, where the
 * path grows by `.tag` through struct fields and by `["key"]` through map
 * entries (each map entry first declares itself with `path["key"]={};`).
 *
 * Reflection is modelled by a description of the Go type (`GoType`) and of
 * the value (`Value`); the marshaler chosen for a type is a `Marshaler` tree;
 * the `io.Writer` is a `Writer` object whose n-th write may fail.
 */
module CsdMarshal {
  import opened Wrappers
  import opened Text
  import opened Strconv

  // ---------------------------------------------------------------- types and values

  /** The kinds the marshaler distinguishes; `TOther` is every other kind (slices, pointers, ...). */
  datatype GoType =
    | TString
    | TBool
    | TInt(bits: nat)
    | TUint(bits: nat)
    | TFloat32
    | TFloat64
    | TStruct(fields: seq<StructField>)
    | TMap(key: GoType, elem: GoType)
    | TOther(kind: string)

  /** A struct field: its name, its `csd` tag when it has one, and its type. */
  datatype StructField = StructField(name: string, tag: Option<string>, typ: GoType)

  /**
   * A value as reflection sees it.  A float carries its own shortest decimal
   * text (formatting floats is not modelled); a map carries its entries in the
   * order `MapKeys` returns them, which Go leaves unspecified.
   */
  datatype Value =
    | VString(s: string)
    | VBool(b: bool)
    | VInt(i: int)
    | VUint(u: nat)
    | VFloat(decimal: string)
    | VStruct(fieldValues: seq<Value>)
    | VMap(entries: seq<Entry>)
    | VOther

  datatype Entry = Entry(key: string, val: Value)

  /** A value of the given type: the right shape, every field and element typed, map keys distinct. */
  predicate HasType(v: Value, t: GoType)
    decreases t
  {
    match t
    case TString => v.VString?
    case TBool => v.VBool?
    case TInt(_) => v.VInt?
    case TUint(_) => v.VUint?
    case TFloat32 => v.VFloat?
    case TFloat64 => v.VFloat?
    case TStruct(fs) =>
      v.VStruct? && |v.fieldValues| == |fs|
      && forall i :: 0 <= i < |fs| ==> HasType(v.fieldValues[i], fs[i].typ)
    case TMap(_, e) =>
      v.VMap?
      && (forall i :: 0 <= i < |v.entries| ==> HasType(v.entries[i].val, e))
      && (forall i, j :: 0 <= i < j < |v.entries| ==> v.entries[i].key != v.entries[j].key)
    case TOther(_) => v.VOther?
  }

  // ---------------------------------------------------------------- marshalers

  /** The scalar renderers of primitive.go. */
  datatype Render = RString | RBool | RInt | RUint | RFloat32 | RFloat64

  datatype Marshaler =
    | Scalar(render: Render)
    | Struct(fields: seq<FieldMarshaler>)
    | Map(elem: Marshaler)

  /** A struct field that is written: its position in the struct, its tag, its marshaler. */
  datatype FieldMarshaler = FieldMarshaler(index: nat, tag: string, m: Marshaler)

  /** `newMarshaler`: the marshaler for a type, or none (Go's nil). */
  function MarshalerFor(t: GoType): Option<Marshaler>
    decreases t, 2
  {
    match t
    case TString => Some(Scalar(RString))
    case TBool => Some(Scalar(RBool))
    case TInt(_) => Some(Scalar(RInt))
    case TUint(_) => Some(Scalar(RUint))
    case TFloat32 => Some(Scalar(RFloat32))
    case TFloat64 => Some(Scalar(RFloat64))
    case TStruct(_) => Some(Struct(FieldsFrom(t, 0)))
    case TMap(k, e) =>
      if !k.TString? then None
      else
        (match MarshalerFor(e)
         case None => None
         case Some(m) => Some(Map(m)))
    case TOther(_) => None
  }

  /** `newFieldMarshaler`: only a tagged field of a marshalable type is written (its index is set later). */
  function FieldFor(sf: StructField): Option<FieldMarshaler>
    decreases sf.typ, 3
  {
    if sf.tag.None? then None
    else match MarshalerFor(sf.typ)
      case None => None
      case Some(m) => Some(FieldMarshaler(0, sf.tag.value, m))
  }

  /** The field marshalers `newStructMarshaler` collects from field `i` on, each with its index. */
  function FieldsFrom(t: GoType, i: nat): seq<FieldMarshaler>
    requires t.TStruct? && i <= |t.fields|
    decreases t, 1, |t.fields| - i
  {
    if i == |t.fields| then []
    else match FieldFor(t.fields[i])
      case None => FieldsFrom(t, i + 1)
      case Some(fm) => [fm.(index := i)] + FieldsFrom(t, i + 1)
  }

  /** The value has what the marshaler reads from it (reflection would panic otherwise). */
  predicate Matches(m: Marshaler, v: Value)
    decreases m
  {
    match m
    case Scalar(r) =>
      (match r
       case RString => v.VString?
       case RBool => v.VBool?
       case RInt => v.VInt?
       case RUint => v.VUint?
       case RFloat32 => v.VFloat?
       case RFloat64 => v.VFloat?)
    case Struct(fms) =>
      v.VStruct?
      && forall k :: 0 <= k < |fms| ==>
           fms[k].index < |v.fieldValues| && Matches(fms[k].m, v.fieldValues[fms[k].index])
    case Map(e) =>
      v.VMap? && forall k :: 0 <= k < |v.entries| ==> Matches(e, v.entries[k].val)
  }

  // ---------------------------------------------------------------- output

  /** The text of a scalar: strings verbatim, booleans and integers in base 10. */
  function RenderText(r: Render, v: Value): string
    requires Matches(Scalar(r), v)
  {
    match r
    case RString => v.s
    case RBool => FormatBool(v.b)
    case RInt => FormatInt(v.i)
    case RUint => FormatNat(v.u)
    case RFloat32 => v.decimal
    case RFloat64 => v.decimal
  }

  /** The one line a scalar writes. */
  function Line(p: string, text: string): string {
    p + "=\"" + text + "\";\n"
  }

  /** The prefix a struct hands its fields: a dot is added to a non-empty path. */
  function StructPrefix(p: string): string {
    if p != "" then p + "." else p
  }

  /** The path of a map entry. */
  function EntryPath(p: string, key: string): string {
    p + "[\"" + key + "\"]"
  }

  /** The line that declares a map entry. */
  function EntryHeader(kp: string): string {
    kp + "={};\n"
  }

  /** The writes `Marshal` makes under path `p` when no write fails. */
  function Lines(m: Marshaler, v: Value, p: string): seq<string>
    requires Matches(m, v)
    decreases m, 1
  {
    match m
    case Scalar(r) => [Line(p, RenderText(r, v))]
    case Struct(_) => FieldLines(m, v, StructPrefix(p), 0)
    case Map(_) => if |v.entries| == 0 then [] else EntryLines(m, v, p, 0)
  }

  /** The writes of the struct fields from the `i`-th marshaler on. */
  function FieldLines(m: Marshaler, v: Value, q: string, i: nat): seq<string>
    requires m.Struct? && Matches(m, v) && i <= |m.fields|
    decreases m, 0, |m.fields| - i
  {
    if i == |m.fields| then []
    else
      var fm := m.fields[i];
      Lines(fm.m, v.fieldValues[fm.index], q + fm.tag) + FieldLines(m, v, q, i + 1)
  }

  /** The writes of the map entries from the `i`-th on. */
  function EntryLines(m: Marshaler, v: Value, p: string, i: nat): seq<string>
    requires m.Map? && Matches(m, v) && i <= |v.entries|
    decreases m, 0, |v.entries| - i
  {
    if i == |v.entries| then []
    else
      var kp := EntryPath(p, v.entries[i].key);
      [EntryHeader(kp)] + Lines(m.elem, v.entries[i].val, kp) + EntryLines(m, v, p, i + 1)
  }

  function Concat(lines: seq<string>): string {
    if |lines| == 0 then "" else lines[0] + Concat(lines[1..])
  }

  // ---------------------------------------------------------------- the writer

  /** What a writer holds: the text accepted so far and the number of writes attempted. */
  datatype WriterState = WriterState(text: string, writes: nat)

  /** An `io.Writer` whose n-th write (from 0) fails when `fails(n)`; a failed write adds nothing. */
  class Writer {
    const fails: nat -> bool
    var text: string
    var writes: nat

    constructor (fails: nat -> bool)
      ensures this.fails == fails && text == "" && writes == 0
    {
      this.fails := fails;
      text := "";
      writes := 0;
    }

    function State(): WriterState
      reads this
    {
      WriterState(text, writes)
    }

    /** `io.WriteString`. */
    method WriteString(s: string) returns (err: bool)
      modifies this
      ensures writes == old(writes) + 1 && err == fails(old(writes))
      ensures text == if err then old(text) else old(text) + s
    {
      err := fails(writes);
      if !err {
        text := text + s;
      }
      writes := writes + 1;
    }
  }

  /** Writing `lines` in order, stopping at the first failed write: the new state and whether one failed. */
  function Feed(lines: seq<string>, st: WriterState, fails: nat -> bool): (WriterState, bool)
    decreases |lines|
  {
    if |lines| == 0 then (st, false)
    else if fails(st.writes) then (WriterState(st.text, st.writes + 1), true)
    else Feed(lines[1..], WriterState(st.text + lines[0], st.writes + 1), fails)
  }

  // ---------------------------------------------------------------- building marshalers

  /** `newMarshaler`: dispatch on the kind of the type. */
  method NewMarshaler(t: GoType) returns (m: Option<Marshaler>)
    ensures m == MarshalerFor(t)
    decreases t, 2
  {
    match t
    case TString => m := Some(Scalar(RString));
    case TBool => m := Some(Scalar(RBool));
    case TInt(_) => m := Some(Scalar(RInt));
    case TUint(_) => m := Some(Scalar(RUint));
    case TFloat32 => m := Some(Scalar(RFloat32));
    case TFloat64 => m := Some(Scalar(RFloat64));
    case TStruct(_) =>
      var sm := NewStructMarshaler(t);
      m := Some(sm);
    case TMap(_, _) => m := NewMapMarshaler(t);
    case TOther(_) => m := None;
  }

  /** `newMapMarshaler`: string keys and a marshalable element type are required. */
  method NewMapMarshaler(t: GoType) returns (m: Option<Marshaler>)
    requires t.TMap?
    ensures m == MarshalerFor(t)
    decreases t, 1
  {
    if !t.key.TString? {
      return None;
    }
    var em := NewMarshaler(t.elem);
    if em.None? {
      return None;
    }
    m := Some(Map(em.value));
  }

  /** `newStructMarshaler`: the written fields, in declaration order, each with its index. */
  method NewStructMarshaler(t: GoType) returns (m: Marshaler)
    requires t.TStruct?
    ensures m == Struct(FieldsFrom(t, 0))
    decreases t, 1
  {
    var fields: seq<FieldMarshaler> := [];
    var i := 0;
    while i < |t.fields|
      invariant 0 <= i <= |t.fields|
      invariant fields + FieldsFrom(t, i) == FieldsFrom(t, 0)
    {
      var fm := NewFieldMarshaler(t.fields[i]);
      if fm.None? {
        i := i + 1;
        continue;
      }
      fields := fields + [fm.value.(index := i)];
      i := i + 1;
    }
    m := Struct(fields);
  }

  /** `newFieldMarshaler`. */
  method NewFieldMarshaler(sf: StructField) returns (fm: Option<FieldMarshaler>)
    ensures fm == FieldFor(sf)
    decreases sf.typ, 3
  {
    if sf.tag.None? {
      return None;
    }
    var m := NewMarshaler(sf.typ);
    if m.None? {
      return None;
    }
    fm := Some(FieldMarshaler(0, sf.tag.value, m.value));
  }

  // ---------------------------------------------------------------- marshaling

  /** `marshaler.Marshal`: write the value under path `p`, stopping at the first failed write. */
  method MarshalValue(m: Marshaler, v: Value, p: string, w: Writer) returns (err: bool)
    requires Matches(m, v)
    modifies w
    ensures (w.State(), err) == Feed(Lines(m, v, p), old(w.State()), w.fails)
    decreases m, 1
  {
    match m
    case Scalar(r) => err := MarshalScalar(r, v, p, w);
    case Struct(_) => err := MarshalStruct(m, v, p, w);
    case Map(_) => err := MarshalMap(m, v, p, w);
  }

  /** `marshalerFunc.Marshal`: one line. */
  method MarshalScalar(r: Render, v: Value, p: string, w: Writer) returns (err: bool)
    requires Matches(Scalar(r), v)
    modifies w
    ensures (w.State(), err) == Feed([Line(p, RenderText(r, v))], old(w.State()), w.fails)
  {
    err := w.WriteString(Line(p, RenderText(r, v)));
  }

  /** `structMarshaler.Marshal`: the fields in order under the dotted prefix. */
  method MarshalStruct(m: Marshaler, v: Value, p: string, w: Writer) returns (err: bool)
    requires m.Struct? && Matches(m, v)
    modifies w
    ensures (w.State(), err) == Feed(Lines(m, v, p), old(w.State()), w.fails)
    decreases m, 0
  {
    var q := p;
    if q != "" {
      q := q + ".";
    }
    ghost var start := w.State();
    var i := 0;
    while i < |m.fields|
      invariant 0 <= i <= |m.fields|
      invariant Feed(FieldLines(m, v, q, 0), start, w.fails) == Feed(FieldLines(m, v, q, i), w.State(), w.fails)
    {
      var fm := m.fields[i];
      ghost var before := w.State();
      err := MarshalField(fm, v.fieldValues[fm.index], q, w);
      FeedAppend(Lines(fm.m, v.fieldValues[fm.index], q + fm.tag), FieldLines(m, v, q, i + 1), before, w.fails);
      if err {
        return;
      }
      i := i + 1;
    }
    err := false;
  }

  /** `fieldMarshaler.Marshal`: the field's marshaler under the prefix plus the tag. */
  method MarshalField(fm: FieldMarshaler, v: Value, q: string, w: Writer) returns (err: bool)
    requires Matches(fm.m, v)
    modifies w
    ensures (w.State(), err) == Feed(Lines(fm.m, v, q + fm.tag), old(w.State()), w.fails)
    decreases fm.m, 2
  {
    err := MarshalValue(fm.m, v, q + fm.tag, w);
  }

  /** `mapMarshaler.Marshal`: for each key its declaration, then its element under the key's path. */
  method MarshalMap(m: Marshaler, v: Value, p: string, w: Writer) returns (err: bool)
    requires m.Map? && Matches(m, v)
    modifies w
    ensures (w.State(), err) == Feed(Lines(m, v, p), old(w.State()), w.fails)
    decreases m, 0
  {
    if |v.entries| == 0 {
      return false;
    }
    ghost var start := w.State();
    var i := 0;
    while i < |v.entries|
      invariant 0 <= i <= |v.entries|
      invariant Feed(EntryLines(m, v, p, 0), start, w.fails) == Feed(EntryLines(m, v, p, i), w.State(), w.fails)
    {
      var kp := EntryPath(p, v.entries[i].key);
      ghost var before := w.State();
      ghost var body := Lines(m.elem, v.entries[i].val, kp);
      ghost var rest := EntryLines(m, v, p, i + 1);
      assert EntryLines(m, v, p, i) == [EntryHeader(kp)] + (body + rest);
      err := w.WriteString(EntryHeader(kp));
      if err {
        return;
      }
      assert ([EntryHeader(kp)] + (body + rest))[1..] == body + rest;
      ghost var mid := w.State();
      err := MarshalValue(m.elem, v.entries[i].val, kp, w);
      FeedAppend(body, rest, mid, w.fails);
      if err {
        return;
      }
      i := i + 1;
    }
    err := false;
  }

  // ---------------------------------------------------------------- the encoder

  datatype EncodeError = NoMarshaler(t: GoType) | WriteFailed

  /** `Encoder.Encode`: the marshaler for the value's type writes it under the prefix as given. */
  method Encode(w: Writer, v: Value, t: GoType, p: string) returns (err: Option<EncodeError>)
    requires HasType(v, t)
    modifies w
    ensures MarshalerFor(t).None? ==> err == Some(NoMarshaler(t)) && w.State() == old(w.State())
    ensures MarshalerFor(t).Some? ==>
      Matches(MarshalerFor(t).value, v)
      && (w.State(), err.Some?) == Feed(Lines(MarshalerFor(t).value, v, p), old(w.State()), w.fails)
      && (err.Some? ==> err.value == WriteFailed)
  {
    var m := NewMarshaler(t);
    if m.None? {
      return Some(NoMarshaler(t));
    }
    TypedValuesMatch(v, t);
    var failed := MarshalValue(m.value, v, p, w);
    err := if failed then Some(WriteFailed) else None;
  }

  /** `Marshal`: encode into a fresh string builder, which never fails, and return its text. */
  method Marshal(v: Value, t: GoType, p: string) returns (s: string, err: Option<EncodeError>)
    requires HasType(v, t)
    ensures MarshalerFor(t).None? ==> s == "" && err == Some(NoMarshaler(t))
    ensures MarshalerFor(t).Some? ==>
      Matches(MarshalerFor(t).value, v) && s == Concat(Lines(MarshalerFor(t).value, v, p)) && err.None?
  {
    var w := new Writer(n => false);
    err := Encode(w, v, t, p);
    if MarshalerFor(t).Some? {
      FeedReliable(Lines(MarshalerFor(t).value, v, p), WriterState("", 0), w.fails);
    }
    s := w.text;
  }

  // ---------------------------------------------------------------- properties of writing

  /** Writing two batches is writing the first, then, unless it failed, the second. */
  lemma {:induction false} FeedAppend(a: seq<string>, b: seq<string>, st: WriterState, fails: nat -> bool)
    ensures Feed(a + b, st, fails)
      == (var r := Feed(a, st, fails); if r.1 then r else Feed(b, r.0, fails))
    decreases |a|
  {
    if |a| > 0 {
      assert (a + b)[1..] == a[1..] + b;
      if !fails(st.writes) {
        FeedAppend(a[1..], b, WriterState(st.text + a[0], st.writes + 1), fails);
      }
    } else {
      assert a + b == b;
    }
  }

  /** A writer that never fails takes every line, in order. */
  lemma {:induction false} FeedReliable(lines: seq<string>, st: WriterState, fails: nat -> bool)
    requires forall n :: !fails(n)
    ensures Feed(lines, st, fails) == (WriterState(st.text + Concat(lines), st.writes + |lines|), false)
    decreases |lines|
  {
    if |lines| > 0 {
      assert !fails(st.writes);
      FeedReliable(lines[1..], WriterState(st.text + lines[0], st.writes + 1), fails);
      assert (st.text + lines[0]) + Concat(lines[1..]) == st.text + (lines[0] + Concat(lines[1..]));
    } else {
      assert st.text + "" == st.text;
    }
  }

  /** Whatever the writer does, it holds a prefix of the output: the whole output exactly when no write failed. */
  lemma {:induction false} FeedKeepsPrefix(lines: seq<string>, st: WriterState, fails: nat -> bool)
    ensures var r := Feed(lines, st, fails);
      exists k :: 0 <= k <= |lines| && r.0.text == st.text + Concat(lines[..k]) && (r.1 <==> k < |lines|)
    decreases |lines|
  {
    var r := Feed(lines, st, fails);
    if |lines| == 0 {
      assert r.0.text == st.text + Concat(lines[..0]);
    } else if fails(st.writes) {
      assert r.0.text == st.text + Concat(lines[..0]);
    } else {
      var st' := WriterState(st.text + lines[0], st.writes + 1);
      FeedKeepsPrefix(lines[1..], st', fails);
      var k :| 0 <= k <= |lines[1..]| && r.0.text == st'.text + Concat(lines[1..][..k]) && (r.1 <==> k < |lines[1..]|);
      assert lines[..k + 1][1..] == lines[1..][..k];
      assert r.0.text == st.text + Concat(lines[..k + 1]);
    }
  }

  // ---------------------------------------------------------------- properties of marshalers

  /** String and bool kinds get their renderers; every int width the int one, every uint width the uint one. */
  lemma KindDispatch(bits: nat)
    ensures MarshalerFor(TString) == Some(Scalar(RString))
    ensures MarshalerFor(TBool) == Some(Scalar(RBool))
    ensures MarshalerFor(TInt(bits)) == Some(Scalar(RInt))
    ensures MarshalerFor(TUint(bits)) == Some(Scalar(RUint))
    ensures forall k :: MarshalerFor(TOther(k)).None?
  {
  }

  /** A map has a marshaler exactly when its keys are strings and its elements have one. */
  lemma MapNeedsStringKeys(k: GoType, e: GoType)
    ensures MarshalerFor(TMap(k, e)).Some? <==> k.TString? && MarshalerFor(e).Some?
    ensures MarshalerFor(TMap(k, e)).Some? ==> MarshalerFor(TMap(k, e)).value == Map(MarshalerFor(e).value)
  {
  }

  /**
   * Every written field of a struct, from field `i` on, records its position,
   * its tag and the marshaler of its type.
   */
  lemma {:induction false} FieldsFromSound(t: GoType, i: nat)
    requires t.TStruct? && i <= |t.fields|
    ensures forall fm :: fm in FieldsFrom(t, i) ==>
      i <= fm.index < |t.fields|
      && t.fields[fm.index].tag == Some(fm.tag)
      && MarshalerFor(t.fields[fm.index].typ) == Some(fm.m)
    decreases |t.fields| - i
  {
    if i < |t.fields| {
      FieldsFromSound(t, i + 1);
    }
  }

  /** Field indices strictly increase along the list. */
  predicate IndexAscending(fms: seq<FieldMarshaler>) {
    forall k, l :: 0 <= k < l < |fms| ==> fms[k].index < fms[l].index
  }

  /** The written fields come in declaration order. */
  lemma {:induction false} FieldsFromOrdered(t: GoType, i: nat)
    requires t.TStruct? && i <= |t.fields|
    ensures IndexAscending(FieldsFrom(t, i))
    decreases |t.fields| - i
  {
    if i < |t.fields| {
      FieldsFromOrdered(t, i + 1);
      FieldsFromSound(t, i + 1);
      var rest := FieldsFrom(t, i + 1);
      if FieldFor(t.fields[i]).Some? {
        var head := FieldFor(t.fields[i]).value.(index := i);
        assert FieldsFrom(t, i) == [head] + rest;
        AscendingCons(head, rest);
      }
    }
  }

  /** A field before a list of later fields keeps the list ascending. */
  lemma AscendingCons(head: FieldMarshaler, rest: seq<FieldMarshaler>)
    requires IndexAscending(rest) && forall fm :: fm in rest ==> head.index < fm.index
    ensures IndexAscending([head] + rest)
  {
    var fms := [head] + rest;
    forall k, l | 0 <= k < l < |fms| ensures fms[k].index < fms[l].index {
      assert fms[l] == rest[l - 1] && fms[l] in rest;
      if k > 0 {
        assert fms[k] == rest[k - 1];
      }
    }
  }

  /** A field is written exactly when it has a tag and its type has a marshaler. */
  lemma {:induction false} FieldsFromComplete(t: GoType, i: nat, j: nat)
    requires t.TStruct? && i <= j < |t.fields|
    ensures t.fields[j].tag.Some? && MarshalerFor(t.fields[j].typ).Some?
      <==> exists fm :: fm in FieldsFrom(t, i) && fm.index == j
    decreases |t.fields| - i
  {
    FieldsFromSound(t, i);
    if i < j {
      FieldsFromComplete(t, i + 1, j);
      var rest := FieldsFrom(t, i + 1);
      if FieldFor(t.fields[i]).Some? {
        var head := FieldFor(t.fields[i]).value.(index := i);
        assert FieldsFrom(t, i) == [head] + rest;
        if exists fm :: fm in FieldsFrom(t, i) && fm.index == j {
          var fm :| fm in FieldsFrom(t, i) && fm.index == j;
          assert fm != head && fm in rest;
        }
      }
    } else {
      if t.fields[j].tag.Some? && MarshalerFor(t.fields[j].typ).Some? {
        var head := FieldFor(t.fields[j]).value.(index := j);
        assert FieldsFrom(t, j) == [head] + FieldsFrom(t, j + 1);
        assert head in FieldsFrom(t, j);
      }
    }
  }

  /** The marshaler chosen for a type can read every value of that type. */
  lemma {:induction false} TypedValuesMatch(v: Value, t: GoType)
    requires HasType(v, t) && MarshalerFor(t).Some?
    ensures Matches(MarshalerFor(t).value, v)
    decreases t
  {
    match t
    case TStruct(fs) =>
      var fms := FieldsFrom(t, 0);
      FieldsFromSound(t, 0);
      forall k | 0 <= k < |fms|
        ensures fms[k].index < |v.fieldValues| && Matches(fms[k].m, v.fieldValues[fms[k].index])
      {
        var idx := fms[k].index;
        assert idx < |fs| && MarshalerFor(fs[idx].typ) == Some(fms[k].m);
        assert HasType(v.fieldValues[idx], fs[idx].typ);
        TypedValuesMatch(v.fieldValues[idx], fs[idx].typ);
      }
      assert MarshalerFor(t).value == Struct(fms);
    case TMap(_, e) =>
      forall k | 0 <= k < |v.entries|
        ensures Matches(MarshalerFor(e).value, v.entries[k].val)
      {
        TypedValuesMatch(v.entries[k].val, e);
      }
    case _ =>
  }

  // ---------------------------------------------------------------- properties of the output

  /** A scalar is one line, `p="text";` and a newline, with the text in it verbatim. */
  lemma ScalarLine(r: Render, v: Value, p: string)
    requires Matches(Scalar(r), v)
    ensures |Lines(Scalar(r), v, p)| == 1
    ensures var l := Lines(Scalar(r), v, p)[0];
      HasPrefix(l, p + "=\"") && HasSuffix(l, "\";\n")
      && l[|p| + 2..|l| - 3] == RenderText(r, v)
  {
    var l := Line(p, RenderText(r, v));
    assert l == (p + "=\"") + RenderText(r, v) + "\";\n";
  }

  /** A signed integer reads back through `strconv.ParseInt` from the text written for it. */
  lemma IntTextReadsBack(i: int)
    requires -(Pow2(63) as int) <= i < Pow2(63)
    ensures ParseInt(RenderText(RInt, VInt(i)), 64) == Ok(i)
  {
    ParseFormatInt(i, 64);
  }

  /** An unsigned integer reads back through `strconv.ParseUint` from the text written for it. */
  lemma UintTextReadsBack(u: nat)
    requires u < Pow2(64)
    ensures ParseUint(RenderText(RUint, VUint(u)), 64) == Ok(u)
  {
    ParseFormatUint(u, 64);
  }

  /** Booleans are written as `true` or `false`, which read back; strings are written verbatim. */
  lemma BoolAndStringText(b: bool, s: string)
    ensures RenderText(RBool, VBool(b)) == (if b then "true" else "false")
    ensures ParseBool(RenderText(RBool, VBool(b))) == Ok(b)
    ensures RenderText(RString, VString(s)) == s
  {
  }

  /** An empty map writes nothing. */
  lemma EmptyMapWritesNothing(m: Marshaler, p: string)
    requires m.Map?
    ensures Lines(m, VMap([]), p) == []
  {
  }

  lemma HasPrefixTrans(l: string, p: string, x: string)
    requires HasPrefix(l, p + x)
    ensures HasPrefix(l, p)
  {
    assert l[..|p|] == l[..|p + x|][..|p|];
  }

  /** Every line written under path `p` starts with `p`. */
  lemma {:induction false} LinesHavePrefix(m: Marshaler, v: Value, p: string)
    requires Matches(m, v)
    ensures forall l :: l in Lines(m, v, p) ==> HasPrefix(l, p)
    decreases m, 1
  {
    match m
    case Scalar(r) =>
      assert Line(p, RenderText(r, v)) == p + ("=\"" + RenderText(r, v) + "\";\n");
      HasPrefixTrans(Line(p, RenderText(r, v)), p, "=\"" + RenderText(r, v) + "\";\n");
    case Struct(_) =>
      FieldLinesHavePrefix(m, v, StructPrefix(p), 0);
      if p != "" {
        forall l | l in Lines(m, v, p) ensures HasPrefix(l, p) {
          HasPrefixTrans(l, p, ".");
        }
      }
    case Map(_) =>
      if |v.entries| > 0 {
        EntryLinesHavePrefix(m, v, p, 0);
      }
  }

  /** Every line of a struct's fields starts with the struct's prefix plus the field's tag. */
  lemma {:induction false} FieldLinesHavePrefix(m: Marshaler, v: Value, q: string, i: nat)
    requires m.Struct? && Matches(m, v) && i <= |m.fields|
    ensures forall l :: l in FieldLines(m, v, q, i) ==> HasPrefix(l, q)
    ensures forall k :: i <= k < |m.fields| ==>
      forall l :: l in Lines(m.fields[k].m, v.fieldValues[m.fields[k].index], q + m.fields[k].tag) ==>
        HasPrefix(l, q + m.fields[k].tag)
    decreases m, 0, |m.fields| - i
  {
    if i < |m.fields| {
      var fm := m.fields[i];
      LinesHavePrefix(fm.m, v.fieldValues[fm.index], q + fm.tag);
      FieldLinesHavePrefix(m, v, q, i + 1);
      forall l | l in Lines(fm.m, v.fieldValues[fm.index], q + fm.tag) ensures HasPrefix(l, q) {
        HasPrefixTrans(l, q, fm.tag);
      }
    }
  }

  /** Every line of a map's entries starts with the map's path. */
  lemma {:induction false} EntryLinesHavePrefix(m: Marshaler, v: Value, p: string, i: nat)
    requires m.Map? && Matches(m, v) && i <= |v.entries|
    ensures forall l :: l in EntryLines(m, v, p, i) ==> HasPrefix(l, p)
    decreases m, 0, |v.entries| - i
  {
    if i < |v.entries| {
      var key := v.entries[i].key;
      var kp := EntryPath(p, key);
      assert kp == p + ("[\"" + key + "\"]");
      LinesHavePrefix(m.elem, v.entries[i].val, kp);
      EntryLinesHavePrefix(m, v, p, i + 1);
      assert EntryHeader(kp) == p + ("[\"" + key + "\"]" + "={};\n");
      HasPrefixTrans(EntryHeader(kp), p, "[\"" + key + "\"]" + "={};\n");
      forall l | l in Lines(m.elem, v.entries[i].val, kp) ensures HasPrefix(l, p) {
        HasPrefixTrans(l, p, "[\"" + key + "\"]");
      }
    }
  }

  // ---------------------------------------------------------------- map order

  /** The block one map entry writes: its declaration, then its element. */
  function Block(e: Marshaler, p: string, x: Entry): seq<string>
    requires Matches(e, x.val)
  {
    var kp := EntryPath(p, x.key);
    [EntryHeader(kp)] + Lines(e, x.val, kp)
  }

  predicate AllMatch(e: Marshaler, es: seq<Entry>) {
    forall k :: 0 <= k < |es| ==> Matches(e, es[k].val)
  }

  /** The blocks of the entries, in iteration order. */
  function Blocks(e: Marshaler, p: string, es: seq<Entry>): seq<seq<string>>
    requires AllMatch(e, es)
  {
    if |es| == 0 then [] else [Block(e, p, es[0])] + Blocks(e, p, es[1..])
  }

  function Flatten(bs: seq<seq<string>>): seq<string> {
    if |bs| == 0 then [] else bs[0] + Flatten(bs[1..])
  }

  /** A map's output is its entries' blocks in the order the keys were visited. */
  lemma {:induction false} EntryLinesAreBlocks(m: Marshaler, v: Value, p: string, i: nat)
    requires m.Map? && Matches(m, v) && i <= |v.entries|
    ensures AllMatch(m.elem, v.entries[i..])
    ensures EntryLines(m, v, p, i) == Flatten(Blocks(m.elem, p, v.entries[i..]))
    decreases |v.entries| - i
  {
    if i < |v.entries| {
      EntryLinesAreBlocks(m, v, p, i + 1);
      assert v.entries[i..][1..] == v.entries[i + 1..];
    }
  }

  lemma {:induction false} BlocksAppend(e: Marshaler, p: string, a: seq<Entry>, b: seq<Entry>)
    requires AllMatch(e, a) && AllMatch(e, b)
    ensures AllMatch(e, a + b)
    ensures Blocks(e, p, a + b) == Blocks(e, p, a) + Blocks(e, p, b)
    decreases |a|
  {
    if |a| > 0 {
      assert (a + b)[1..] == a[1..] + b;
      BlocksAppend(e, p, a[1..], b);
    } else {
      assert a + b == b;
    }
  }

  /** Taking the same element out of two sequences with equal multisets leaves equal multisets. */
  lemma RemoveMatching<T>(a: seq<T>, b: seq<T>, j: nat)
    requires |a| > 0 && j < |b| && b[j] == a[0]
    requires multiset(a) == multiset(b)
    ensures multiset(a[1..]) == multiset(b[..j] + b[j + 1..])
  {
    assert a == [a[0]] + a[1..];
    assert multiset(a) == multiset(a[1..]) + multiset{a[0]};
    assert b == b[..j] + [b[j]] + b[j + 1..];
    MultisetMiddle(b[..j], b[j], b[j + 1..]);
    var rest := multiset(b[..j] + b[j + 1..]);
    assert multiset(b) == rest + multiset{a[0]};
    forall y ensures multiset(a[1..])[y] == rest[y] {
      assert (multiset(a[1..]) + multiset{a[0]})[y] == (rest + multiset{a[0]})[y];
    }
  }

  lemma MultisetMiddle<T>(u: seq<T>, x: T, w: seq<T>)
    ensures multiset(u + [x] + w) == multiset(u + w) + multiset{x}
  {
    assert multiset(u + [x] + w) == multiset(u) + multiset([x]) + multiset(w);
    assert multiset(u + w) == multiset(u) + multiset(w);
  }

  /** The blocks of a sequence cut around one entry. */
  lemma BlocksSplit(e: Marshaler, p: string, b: seq<Entry>, j: nat)
    requires AllMatch(e, b) && j < |b|
    ensures AllMatch(e, b[..j] + b[j + 1..])
    ensures Blocks(e, p, b) == Blocks(e, p, b[..j]) + [Block(e, p, b[j])] + Blocks(e, p, b[j + 1..])
    ensures Blocks(e, p, b[..j] + b[j + 1..]) == Blocks(e, p, b[..j]) + Blocks(e, p, b[j + 1..])
  {
    var x := b[j];
    assert b == (b[..j] + [x]) + b[j + 1..];
    assert AllMatch(e, b[..j]) && AllMatch(e, b[j + 1..]) && AllMatch(e, [x]);
    BlocksAppend(e, p, b[..j], b[j + 1..]);
    BlocksAppend(e, p, b[..j], [x]);
    BlocksAppend(e, p, b[..j] + [x], b[j + 1..]);
    assert Blocks(e, p, [x]) == [Block(e, p, x)];
  }

  /** The blocks with one entry put back in the middle. */
  lemma BlocksAround(e: Marshaler, p: string, b: seq<Entry>, j: nat)
    requires AllMatch(e, b) && j < |b|
    ensures AllMatch(e, b[..j] + b[j + 1..])
    ensures multiset(Blocks(e, p, b))
      == multiset(Blocks(e, p, b[..j] + b[j + 1..])) + multiset{Block(e, p, b[j])}
  {
    BlocksSplit(e, p, b, j);
    MultisetMiddle(Blocks(e, p, b[..j]), Block(e, p, b[j]), Blocks(e, p, b[j + 1..]));
  }

  /** The blocks of a list are its first entry's block and the blocks of the rest. */
  lemma BlocksFirst(e: Marshaler, p: string, a: seq<Entry>)
    requires AllMatch(e, a) && |a| > 0
    ensures AllMatch(e, a[1..])
    ensures multiset(Blocks(e, p, a)) == multiset(Blocks(e, p, a[1..])) + multiset{Block(e, p, a[0])}
  {
    assert forall k :: 0 <= k < |a[1..]| ==> a[1..][k] == a[k + 1];
    assert Blocks(e, p, a) == [Block(e, p, a[0])] + Blocks(e, p, a[1..]);
  }

  /**
   * Key order only reorders the entries' blocks: any two visiting orders of
   * the same entries write the same blocks, as a multiset.
   */
  lemma {:induction false} BlocksPermute(e: Marshaler, p: string, a: seq<Entry>, b: seq<Entry>)
    requires AllMatch(e, a) && AllMatch(e, b)
    requires multiset(a) == multiset(b)
    ensures multiset(Blocks(e, p, a)) == multiset(Blocks(e, p, b))
    decreases |a|
  {
    if |a| == 0 {
      assert |b| == |multiset(b)| == 0;
    } else {
      var x := a[0];
      assert x in multiset(b);
      var j :| 0 <= j < |b| && b[j] == x;
      RemoveMatching(a, b, j);
      BlocksAround(e, p, b, j);
      BlocksFirst(e, p, a);
      BlocksPermute(e, p, a[1..], b[..j] + b[j + 1..]);
    }
  }
}
