/**
 * Base-10 conversions from Go's `strconv` as the modelled code uses them:
 * `FormatInt`, `FormatUint`, `FormatBool`, `ParseInt`, `ParseUint`,
 * `ParseBool` and `Atoi`.  Machine widths are explicit bit sizes.
 */
module Strconv {
  import opened Wrappers

  /** The two failure kinds of `strconv.NumError`: `ErrSyntax` and `ErrRange`. */
  datatype NumError = ErrSyntax | ErrRange

  function Pow2(n: nat): (r: nat)
    ensures r >= 1
  {
    if n == 0 then 1 else 2 * Pow2(n - 1)
  }

  predicate IsDigit(c: char) {
    '0' <= c <= '9'
  }

  function DigitValue(c: char): nat
    requires IsDigit(c)
  {
    c as int - '0' as int
  }

  function DigitChar(d: nat): char
    requires d < 10
  {
    ('0' as int + d) as char
  }

  /** `strconv.FormatUint(n, 10)`: no sign, no leading zeros. */
  function FormatNat(n: nat): string
    decreases n
  {
    if n < 10 then [DigitChar(n)] else FormatNat(n / 10) + [DigitChar(n % 10)]
  }

  /** `strconv.FormatInt(i, 10)`: a minus sign for negatives. */
  function FormatInt(i: int): string {
    if i < 0 then "-" + FormatNat(-i) else FormatNat(i)
  }

  /** `strconv.FormatBool`. */
  function FormatBool(b: bool): string {
    if b then "true" else "false"
  }

  predicate AllDigits(s: string) {
    forall i :: 0 <= i < |s| ==> IsDigit(s[i])
  }

  /** The value of a run of decimal digits. */
  function DigitsValue(s: string): nat
    requires AllDigits(s)
  {
    if |s| == 0 then 0 else 10 * DigitsValue(s[..|s| - 1]) + DigitValue(s[|s| - 1])
  }

  /**
   * The digit loop of `strconv.ParseUint`, left to right: a non-digit is a
   * syntax error, a running value above `maxVal` a range error, whichever
   * comes first.
   */
  function ScanDigits(s: string, i: nat, acc: nat, maxVal: nat): Result<nat, NumError>
    requires i <= |s|
    decreases |s| - i
  {
    if i == |s| then Ok(acc)
    else if !IsDigit(s[i]) then Err(ErrSyntax)
    else if 10 * acc + DigitValue(s[i]) > maxVal then Err(ErrRange)
    else ScanDigits(s, i + 1, 10 * acc + DigitValue(s[i]), maxVal)
  }

  /** `strconv.ParseUint(s, 10, bits)`: digits only, no sign, below 2^bits. */
  function ParseUint(s: string, bits: nat): Result<nat, NumError> {
    if s == "" then Err(ErrSyntax) else ScanDigits(s, 0, 0, Pow2(bits) - 1)
  }

  /**
   * `strconv.ParseInt(s, 10, bits)`: an optional sign, then the magnitude is
   * parsed as `ParseUint(rest, 10, bits)` and checked against 2^(bits-1).
   */
  function ParseInt(s: string, bits: nat): Result<int, NumError>
    requires bits >= 1
  {
    if s == "" then Err(ErrSyntax)
    else
      var neg := s[0] == '-';
      var rest := if s[0] == '+' || s[0] == '-' then s[1..] else s;
      match ParseUint(rest, bits)
      case Err(e) => Err(e)
      case Ok(u) =>
        if !neg && u >= Pow2(bits - 1) then Err(ErrRange)
        else if neg && u > Pow2(bits - 1) then Err(ErrRange)
        else Ok(if neg then -(u as int) else u as int)
  }

  /** `strconv.Atoi`: `ParseInt(s, 10, 64)`. */
  function Atoi(s: string): Result<int, NumError> {
    ParseInt(s, 64)
  }

  /** `strconv.ParseBool`: the six spellings of each truth value. */
  function ParseBool(s: string): (r: Result<bool, NumError>)
    ensures r.Ok? <==> s in {"1", "t", "T", "TRUE", "true", "True", "0", "f", "F", "FALSE", "false", "False"}
  {
    if s in {"1", "t", "T", "TRUE", "true", "True"} then Ok(true)
    else if s in {"0", "f", "F", "FALSE", "false", "False"} then Ok(false)
    else Err(ErrSyntax)
  }

  /** The formatted digits are digits and read back as the number. */
  lemma {:induction false} FormatNatDigits(n: nat)
    ensures |FormatNat(n)| >= 1
    ensures AllDigits(FormatNat(n))
    ensures DigitsValue(FormatNat(n)) == n
    decreases n
  {
    if n >= 10 {
      FormatNatDigits(n / 10);
      var s := FormatNat(n);
      assert s[..|s| - 1] == FormatNat(n / 10);
    }
  }

  /** A scan that meets no bound reads the whole digit run. */
  lemma {:induction false} ScanDigitsValue(s: string, i: nat, acc: nat, maxVal: nat)
    requires i <= |s| && AllDigits(s)
    requires AccValue(s, i, acc) <= maxVal
    ensures ScanDigits(s, i, acc, maxVal) == Ok(AccValue(s, i, acc))
    decreases |s| - i
  {
    if i < |s| {
      AccValueStep(s, i, acc);
      AccValueMonotone(s, i + 1, 10 * acc + DigitValue(s[i]));
      ScanDigitsValue(s, i + 1, 10 * acc + DigitValue(s[i]), maxVal);
    }
  }

  /** The value the scan reaches from position `i` with running value `acc`. */
  function AccValue(s: string, i: nat, acc: nat): nat
    requires i <= |s| && AllDigits(s)
    decreases |s| - i
  {
    if i == |s| then acc else AccValue(s, i + 1, 10 * acc + DigitValue(s[i]))
  }

  lemma AccValueStep(s: string, i: nat, acc: nat)
    requires i < |s| && AllDigits(s)
    ensures AccValue(s, i, acc) == AccValue(s, i + 1, 10 * acc + DigitValue(s[i]))
  {
  }

  lemma {:induction false} AccValueMonotone(s: string, i: nat, acc: nat)
    requires i <= |s| && AllDigits(s)
    ensures acc <= AccValue(s, i, acc)
    decreases |s| - i
  {
    if i < |s| { AccValueMonotone(s, i + 1, 10 * acc + DigitValue(s[i])); }
  }

  /** Reading digits from the left agrees with `DigitsValue`. */
  lemma {:induction false} AccValueIsDigitsValue(s: string)
    requires AllDigits(s)
    ensures AccValue(s, 0, 0) == DigitsValue(s)
  {
    AccValueSplit(s, |s|);
    assert s[..|s|] == s;
  }

  lemma {:induction false} AccValueSplit(s: string, k: nat)
    requires k <= |s| && AllDigits(s)
    ensures AccValue(s, 0, 0) == AccValue(s, k, DigitsValue(s[..k]))
    decreases k
  {
    if k > 0 {
      AccValueSplit(s, k - 1);
      assert s[..k][..k - 1] == s[..k - 1];
      assert DigitsValue(s[..k]) == 10 * DigitsValue(s[..k - 1]) + DigitValue(s[k - 1]);
    } else {
      assert s[..0] == "";
    }
  }

  /** `ParseUint` reads back what `FormatUint` wrote, for every value that fits. */
  lemma ParseFormatUint(n: nat, bits: nat)
    requires n < Pow2(bits)
    ensures ParseUint(FormatNat(n), bits) == Ok(n)
  {
    var s := FormatNat(n);
    FormatNatDigits(n);
    AccValueIsDigitsValue(s);
    ScanDigitsValue(s, 0, 0, Pow2(bits) - 1);
  }

  /** `ParseInt` reads back what `FormatInt` wrote, for every value that fits. */
  lemma ParseFormatInt(i: int, bits: nat)
    requires bits >= 1
    requires -(Pow2(bits - 1) as int) <= i < Pow2(bits - 1)
    ensures ParseInt(FormatInt(i), bits) == Ok(i)
  {
    var s := FormatInt(i);
    var m: nat := if i < 0 then -i else i;
    FormatNatDigits(m);
    assert Pow2(bits) == 2 * Pow2(bits - 1);
    ParseFormatUint(m, bits);
    if i < 0 {
      assert s[1..] == FormatNat(m);
    } else {
      assert s[0] != '-' && s[0] != '+';
    }
  }
}
