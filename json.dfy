/**
 * Go's `json.Marshal` applied to a string (HTML escaping on, as `json.Marshal`
 * does), and a decoder for the escapes it produces, so that the quoting used
 * by both PAC generators can be shown to lose nothing.
 */
module JsonString {
  import opened Wrappers

  const HexDigits: string := "0123456789abcdef"

  /** Characters `json.Marshal` copies unchanged (its `htmlSafeSet` plus all non-ASCII but U+2028/U+2029). */
  predicate Plain(c: char) {
    c >= ' ' && c != '"' && c != '\\' && c != '<' && c != '>' && c != '&'
    && c != '\U{2028}' && c != '\U{2029}'
  }

  /**
   * `\u` followed by four lower-case hex digits, most significant first
   * (Go writes `\u00` plus two digits for the bytes below 0x20 and for
   * `<`, `>`, `&`, and `\u202` plus one digit for U+2028/U+2029: the same text).
   */
  function U4(code: nat): string
    requires code < 0x10000
  {
    var q1 := code / 16;
    var q2 := q1 / 16;
    var q3 := q2 / 16;
    ['\\', 'u', HexDigits[q3], HexDigits[q2 % 16], HexDigits[q1 % 16], HexDigits[code % 16]]
  }

  /** The two-character escapes Go uses, by the letter after the backslash. */
  function ShortEscape(c: char): Option<char> {
    if c == '"' then Some('"')
    else if c == '\\' then Some('\\')
    else if c == '\U{0008}' then Some('b')
    else if c == '\U{000C}' then Some('f')
    else if c == '\n' then Some('n')
    else if c == '\r' then Some('r')
    else if c == '\t' then Some('t')
    else None
  }

  /** The character a two-character JSON escape stands for (JSON also allows `\/`). */
  function ShortUnescape(e: char): Option<char> {
    if e == '"' then Some('"')
    else if e == '\\' then Some('\\')
    else if e == '/' then Some('/')
    else if e == 'b' then Some('\U{0008}')
    else if e == 'f' then Some('\U{000C}')
    else if e == 'n' then Some('\n')
    else if e == 'r' then Some('\r')
    else if e == 't' then Some('\t')
    else None
  }

  /** The escape of one character. */
  function EscapeChar(c: char): string {
    if Plain(c) then [c]
    else match ShortEscape(c)
      case Some(e) => ['\\', e]
      case None => if c as int < 0x10000 then U4(c as int) else [c]
  }

  function Escape(s: string): string {
    if |s| == 0 then "" else EscapeChar(s[0]) + Escape(s[1..])
  }

  /** `json.Marshal(s)` for a string `s`. */
  function Quote(s: string): string {
    "\"" + Escape(s) + "\""
  }

  function HexValue(c: char): (r: Option<nat>)
    ensures r.Some? ==> r.value < 16
  {
    if '0' <= c <= '9' then Some(c as int - '0' as int)
    else if 'a' <= c <= 'f' then Some(c as int - 'a' as int + 10)
    else if 'A' <= c <= 'F' then Some(c as int - 'A' as int + 10)
    else None
  }

  /** The character a `\uXXXX` escape stands for (surrogates are not decoded). */
  function DecodeU4(s: string): Option<char>
    requires |s| == 4
  {
    match (HexValue(s[0]), HexValue(s[1]), HexValue(s[2]), HexValue(s[3]))
    case (Some(a), Some(b), Some(c), Some(d)) =>
      var code := ((a * 16 + b) * 16 + c) * 16 + d;
      if code < 0xD800 || 0xE000 <= code then Some(code as char) else None
    case _ => None
  }

  /** The JSON string-body decoder. */
  function Unescape(s: string): Option<string>
    decreases |s|
  {
    if |s| == 0 then Some("")
    else if s[0] == '"' || s[0] < ' ' then None
    else if s[0] != '\\' then
      match Unescape(s[1..])
      case None => None
      case Some(r) => Some([s[0]] + r)
    else if |s| < 2 then None
    else
      var one := ShortUnescape(s[1]);
      if one.Some? then
        match Unescape(s[2..])
        case None => None
        case Some(r) => Some([one.value] + r)
      else if s[1] == 'u' && |s| >= 6 then
        match (DecodeU4(s[2..6]), Unescape(s[6..]))
        case (Some(c), Some(r)) => Some([c] + r)
        case _ => None
      else None
  }

  /** Decodes a quoted JSON string. */
  function Unquote(q: string): Option<string> {
    if |q| >= 2 && q[0] == '"' && q[|q| - 1] == '"' then Unescape(q[1..|q| - 1]) else None
  }

  lemma HexDigitValue(k: nat)
    requires k < 16
    ensures HexValue(HexDigits[k]) == Some(k)
  {
  }

  /** A `\u` escape decodes to the character it was made from. */
  lemma DecodeU4OfCode(c: char)
    requires c as int < 0x10000
    ensures DecodeU4(U4(c as int)[2..6]) == Some(c)
  {
    var code := c as int;
    var q1 := code / 16;
    var q2 := q1 / 16;
    var q3 := q2 / 16;
    assert q3 < 16;
    HexDigitValue(q3);
    HexDigitValue(q2 % 16);
    HexDigitValue(q1 % 16);
    HexDigitValue(code % 16);
    assert U4(code)[2..6] == [HexDigits[q3], HexDigits[q2 % 16], HexDigits[q1 % 16], HexDigits[code % 16]];
    assert (q3 * 16 + q2 % 16) == q2;
    assert (q2 * 16 + q1 % 16) == q1;
    assert (q1 * 16 + code % 16) == code;
  }

  lemma ShortRoundTrip(c: char)
    requires ShortEscape(c).Some?
    ensures ShortUnescape(ShortEscape(c).value) == Some(c)
  {
  }

  /** Every character Go escapes lies in the Basic Multilingual Plane and has no short escape letter `u`. */
  lemma EscapedCharIsBmp(c: char)
    requires !Plain(c)
    ensures c as int < 0x10000
    ensures ShortEscape(c) != Some('u')
  {
  }

  /** Decoding one escaped character followed by more text. */
  lemma UnescapeStep(c: char, rest: string)
    ensures Unescape(EscapeChar(c) + rest) ==
      (match Unescape(rest) case None => None case Some(r) => Some([c] + r))
  {
    var e := EscapeChar(c);
    var s := e + rest;
    if Plain(c) {
      assert s[1..] == rest;
    } else {
      EscapedCharIsBmp(c);
      match ShortEscape(c)
      case Some(l) =>
        ShortRoundTrip(c);
        assert s[1] == l && s[2..] == rest;
      case None =>
        DecodeU4OfCode(c);
        assert s[1] == 'u' && s[2..6] == e[2..6] && s[6..] == rest;
    }
  }

  /** `Unescape` undoes `Escape`. */
  lemma {:induction false} UnescapeEscape(s: string)
    ensures Unescape(Escape(s)) == Some(s)
  {
    if |s| > 0 {
      UnescapeEscape(s[1..]);
      UnescapeStep(s[0], Escape(s[1..]));
      assert [s[0]] + s[1..] == s;
    }
  }

  /** Decoding the quoted form gives the original string: quoting loses nothing. */
  lemma UnquoteQuote(s: string)
    ensures Unquote(Quote(s)) == Some(s)
  {
    var q := Quote(s);
    assert q[1..|q| - 1] == Escape(s);
    UnescapeEscape(s);
  }

  /** Text that may sit inside a `<script>` element and a JavaScript string literal unchanged. */
  predicate HtmlSafe(c: char) {
    c >= ' ' && c != '<' && c != '>' && c != '&' && c != '\U{2028}' && c != '\U{2029}'
  }

  /** One escape is HTML-safe. */
  lemma EscapeCharIsSafe(c: char)
    ensures forall i :: 0 <= i < |EscapeChar(c)| ==> HtmlSafe(EscapeChar(c)[i])
  {
    if !Plain(c) {
      EscapedCharIsBmp(c);
      match ShortEscape(c)
      case Some(e) =>
        assert EscapeChar(c) == ['\\', e];
      case None =>
        assert EscapeChar(c) == U4(c as int);
        U4IsSafe(c as int);
    }
  }

  /** A `\uXXXX` escape is HTML-safe: a backslash, `u` and four hex digits. */
  lemma U4IsSafe(code: nat)
    requires code < 0x10000
    ensures forall i :: 0 <= i < |U4(code)| ==> HtmlSafe(U4(code)[i])
  {
    assert forall k :: 0 <= k < |HexDigits| ==> HtmlSafe(HexDigits[k]);
    var q3 := code / 16 / 16 / 16;
    assert q3 < 16;
  }

  /**
   * With HTML escaping on, the marshalled text holds no `<`, `>`, `&`, no
   * control character and no line or paragraph separator.
   */
  lemma {:induction false} EscapeIsHtmlSafe(s: string)
    ensures forall i :: 0 <= i < |Escape(s)| ==> HtmlSafe(Escape(s)[i])
  {
    if |s| > 0 {
      EscapeIsHtmlSafe(s[1..]);
      var e := EscapeChar(s[0]);
      EscapeCharIsSafe(s[0]);
      assert Escape(s) == e + Escape(s[1..]);
      forall i | 0 <= i < |Escape(s)| ensures HtmlSafe(Escape(s)[i]) {
        if i >= |e| { assert Escape(s)[i] == Escape(s[1..])[i - |e|]; }
      }
    }
  }
}
