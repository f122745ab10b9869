/**
 * The hostscan manifest field parser (openconnect/hostscan/manifest.go):
 * every `<field name=".." value=".."/>` element of the manifest becomes a
 * `Field` whose kind, label and value are read off the name and value
 * attributes.
 */
module HostscanManifest {
  import opened Wrappers
  import opened Text

  /** A manifest entry: Go's `Type`, `Label` and `Value` (empty until set). */
  datatype Field = Field(kind: string, caption: string, value: string)

  /** The `name` and `value` attributes of one element. */
  datatype Attrs = Attrs(name: string, value: string)

  const ListPrefix: string := "lHostScanList"
  const InspectorPrefix: string := "cInspectorExtension"

  /** `'a','b','c'`: three quoted parts, each non-empty and free of quotes. */
  function Quoted(a: string, b: string, c: string): string {
    "'" + a + "','" + b + "','" + c + "'"
  }

  predicate Part(s: string) {
    |s| > 0 && '\'' !in s
  }

  /**
   * The submatches of `^'([^']+)','([^']+)','([^']+)'$`: cutting the value
   * at its quotes must leave exactly an empty start, the three parts
   * separated by commas, and an empty end.
   */
  function MatchTriple(s: string): Option<(string, string, string)> {
    var pieces := Split(s, '\'');
    if |pieces| == 7 && pieces[0] == "" && pieces[2] == "," && pieces[4] == "," && pieces[6] == ""
       && pieces[1] != "" && pieces[3] != "" && pieces[5] != ""
    then Some((pieces[1], pieces[3], pieces[5]))
    else None
  }

  /**
   * `Field.UnmarshalXML`: `decoded` is what decoding the element's attributes
   * gave.  A decode error is returned with the field untouched; otherwise the
   * field is set from the name and value, or left as it was.
   */
  function UnmarshalField(f: Field, decoded: Result<Attrs, string>): (r: (Field, Option<string>))
    ensures decoded.Err? ==> r == (f, Some(decoded.error))
    ensures decoded.Ok? ==> r.1.None?
  {
    match decoded
    case Err(e) => (f, Some(e))
    case Ok(v) =>
      if HasPrefix(v.name, ListPrefix) then
        match MatchTriple(v.value)
        case Some(m) => (Field(m.0, m.1, m.2), None)
        case None => (f, None)
      else if HasPrefix(v.name, InspectorPrefix) then
        (Field("Inspector", v.value, v.value), None)
      else (f, None)
  }

  // ---------------------------------------------------------------- properties

  lemma JoinCons(x: string, rest: seq<string>, sep: string)
    requires |rest| >= 1
    ensures Join([x] + rest, sep) == x + sep + Join(rest, sep)
  {
    assert ([x] + rest)[1..] == rest;
  }

  /** The parts and separators of a quoted triple, nested the way `Join` builds them. */
  function Nested(a: string, b: string, c: string): string {
    "" + "'" + (a + "'" + ("," + "'" + (b + "'" + ("," + "'" + (c + "'" + "")))))
  }

  lemma JoinIsNested(a: string, b: string, c: string)
    ensures Join(["", a, ",", b, ",", c, ""], "'") == Nested(a, b, c)
  {
    var q := "'";
    JoinCons(c, [""], q);
    JoinCons(",", [c, ""], q);
    JoinCons(b, [",", c, ""], q);
    JoinCons(",", [b, ",", c, ""], q);
    JoinCons(a, [",", b, ",", c, ""], q);
    JoinCons("", [a, ",", b, ",", c, ""], q);
    assert ["", a, ",", b, ",", c, ""] == [""] + [a, ",", b, ",", c, ""];
  }

  lemma QuotedIsNested(a: string, b: string, c: string)
    ensures Quoted(a, b, c) == Nested(a, b, c)
  {
    assert "','" == "'" + "," + "'";
  }

  lemma QuotedIsJoin(a: string, b: string, c: string)
    ensures Quoted(a, b, c) == Join(["", a, ",", b, ",", c, ""], "'")
  {
    JoinIsNested(a, b, c);
    QuotedIsNested(a, b, c);
  }

  /** The pattern matches a value exactly when it is three quoted parts, and then yields those parts. */
  lemma MatchTripleExact(s: string, a: string, b: string, c: string)
    ensures MatchTriple(s) == Some((a, b, c)) <==> Part(a) && Part(b) && Part(c) && s == Quoted(a, b, c)
  {
    if Part(a) && Part(b) && Part(c) && s == Quoted(a, b, c) {
      var parts := ["", a, ",", b, ",", c, ""];
      QuotedIsJoin(a, b, c);
      SplitJoin(parts, '\'');
    }
    if MatchTriple(s) == Some((a, b, c)) {
      var pieces := Split(s, '\'');
      SplitPiecesHaveNoSeparator(s, '\'');
      assert '\'' !in pieces[1] && '\'' !in pieces[3] && '\'' !in pieces[5];
      JoinSplit(s, '\'');
      assert pieces == ["", a, ",", b, ",", c, ""];
      QuotedIsJoin(a, b, c);
    }
  }

  /** A host-scan list entry with a well-formed value sets kind, label and value to its three parts. */
  lemma ListEntrySetsParts(f: Field, name: string, a: string, b: string, c: string)
    requires HasPrefix(name, ListPrefix)
    requires Part(a) && Part(b) && Part(c)
    ensures UnmarshalField(f, Ok(Attrs(name, Quoted(a, b, c)))) == (Field(a, b, c), None)
  {
    MatchTripleExact(Quoted(a, b, c), a, b, c);
  }

  /** A host-scan list entry whose value does not match leaves the field as it was, without error. */
  lemma ListEntryMismatchKeepsField(f: Field, name: string, value: string)
    requires HasPrefix(name, ListPrefix)
    requires forall a, b, c :: !(Part(a) && Part(b) && Part(c) && value == Quoted(a, b, c))
    ensures UnmarshalField(f, Ok(Attrs(name, value))) == (f, None)
  {
    match MatchTriple(value)
    case None =>
    case Some(m) =>
      MatchTripleExact(value, m.0, m.1, m.2);
      assert false;
  }

  /** An inspector extension is of kind "Inspector" and uses the value as both label and value. */
  lemma InspectorEntry(f: Field, name: string, value: string)
    requires HasPrefix(name, InspectorPrefix)
    ensures UnmarshalField(f, Ok(Attrs(name, value))) == (Field("Inspector", value, value), None)
  {
    assert name[0] == 'c';
  }

  /** Any other name leaves the field as it was and is not an error. */
  lemma OtherNameKeepsField(f: Field, name: string, value: string)
    requires !HasPrefix(name, ListPrefix) && !HasPrefix(name, InspectorPrefix)
    ensures UnmarshalField(f, Ok(Attrs(name, value))) == (f, None)
  {
  }
}
