/**
 * The JavaScript values that appear in uploaded rows and saved results, and the two
 * conversions the analysis code applies to them: `Number(v)` and `parseFloat(String(v))`.
 * `NaN` is represented by `None`.
 */
module JsValues {
  import opened Options
  import opened Text

  /** A cell of a row: a JSON number, a string, a boolean (CSV parsing with dynamic typing
      reads `true` and `false` as booleans), `null`, or `undefined` for a missing key. */
  datatype Cell = Num(n: real) | Str(s: string) | Bool(b: bool) | Null | Undefined

  /** `x` times 10 raised to an integer power. */
  function Scale(x: real, e: int): real
    decreases if e < 0 then -e else e
  {
    if e == 0 then x else if e > 0 then Scale(x, e - 1) * 10.0 else Scale(x, e + 1) / 10.0
  }

  /** The length of the run of decimal digits that starts at position `i`. */
  function DigitRun(s: string, i: nat): (n: nat)
    requires i <= |s|
    ensures i + n <= |s|
    ensures forall k :: i <= k < i + n ==> IsDigit(s[k])
    ensures i + n == |s| || !IsDigit(s[i + n])
    decreases |s| - i
  {
    if i < |s| && IsDigit(s[i]) then 1 + DigitRun(s, i + 1) else 0
  }

  /** A number read from the front of a text, and the position where its literal ends. */
  datatype Scan = Scan(value: real, end: nat)

  /** The optional exponent part `e[+-]digits` at position `i`: its value and where it ends
      (`(0, i)` when there is no well-formed exponent). */
  function ScanExponent(s: string, i: nat): (r: (int, nat))
    requires i <= |s|
    ensures i <= r.1 <= |s|
  {
    if i < |s| && (s[i] == 'e' || s[i] == 'E') then
      var signLen := if i + 1 < |s| && (s[i + 1] == '+' || s[i + 1] == '-') then 1 else 0;
      var start := i + 1 + signLen;
      if start > |s| then (0, i)
      else
        var n := DigitRun(s, start);
        if n == 0 then (0, i)
        else
          var magnitude := DigitsValue(s[start..start + n]) as int;
          (if signLen == 1 && s[i + 1] == '-' then -magnitude else magnitude, start + n)
    else (0, i)
  }

  /** The longest decimal literal (`[+-] digits [. digits] [e [+-] digits]`, at least one
      mantissa digit) at the front of `s`, or `None` when `s` does not start with one. */
  function ScanDecimal(s: string): (r: Option<Scan>)
    ensures r.Some? ==> 0 < r.value.end <= |s|
  {
    var signLen := if |s| > 0 && (s[0] == '+' || s[0] == '-') then 1 else 0;
    var intLen := DigitRun(s, signLen);
    var dot := signLen + intLen < |s| && s[signLen + intLen] == '.';
    var fracStart := signLen + intLen + (if dot then 1 else 0);
    var fracLen := if dot then DigitRun(s, fracStart) else 0;
    if intLen + fracLen == 0 then None
    else
      var mantissaEnd := fracStart + fracLen;
      var whole := DigitsValue(s[signLen..signLen + intLen]) as real;
      var fraction := Scale(DigitsValue(s[fracStart..mantissaEnd]) as real, -fracLen);
      var (exponent, end) := ScanExponent(s, mantissaEnd);
      var magnitude := Scale(whole + fraction, exponent);
      Some(Scan(if signLen == 1 && s[0] == '-' then -magnitude else magnitude, end))
  }

  /** `Number(s)` for a string: whitespace around the literal is ignored, the empty
      (or all-whitespace) string is 0, anything that is not wholly a decimal literal is NaN. */
  function StringToNumber(s: string): Option<real> {
    var t := Trim(s);
    if t == "" then Some(0.0)
    else
      match ScanDecimal(t)
      case Some(scan) => if scan.end == |t| then Some(scan.value) else None
      case None => None
  }

  /** `Number(v)` for a cell: `true` is 1, `false` and `null` are 0, `undefined` is NaN. */
  function ToNumber(c: Cell): Option<real> {
    match c
    case Num(n) => Some(n)
    case Str(s) => StringToNumber(s)
    case Bool(b) => Some(if b then 1.0 else 0.0)
    case Null => Some(0.0)
    case Undefined => None
  }

  /** `parseFloat(String(v))`: the longest decimal literal after leading whitespace.
      `String(true)`, `String(false)`, `String(null)` and `String(undefined)` are words
      ("true", "false", "null", "undefined"), which give NaN. */
  function ParseFloat(c: Cell): Option<real> {
    match c
    case Num(n) => Some(n)
    case Str(s) => (
      match ScanDecimal(TrimStart(s))
      case Some(scan) => Some(scan.value)
      case None => None)
    case _ => None
  }

  /** The filter `v !== null && v !== ""`; `undefined` passes it. */
  predicate IsBlank(c: Cell) {
    c == Null || c == Str("")
  }

  /** A non-empty run of decimal digits is a whole decimal literal denoting its value. */
  lemma ScanDigits(s: string)
    requires |s| > 0 && AllDigits(s)
    ensures ScanDecimal(s) == Some(Scan(DigitsValue(s) as real, |s|))
  {
    assert IsDigit(s[0]);
    assert DigitRun(s, 0) == |s|;
    assert s[0..|s|] == s;
    assert DigitsValue(s[|s|..|s|]) == 0;
    assert Scale(0.0, 0) == 0.0;
    assert ScanExponent(s, |s|) == (0, |s|);
    assert Scale(DigitsValue(s) as real + 0.0, 0) == DigitsValue(s) as real;
  }

  /** A run of decimal digits is the number it denotes. */
  lemma DigitsNumber(s: string)
    requires |s| > 0 && AllDigits(s)
    ensures StringToNumber(s) == Some(DigitsValue(s) as real)
  {
    assert Trim(s) == s by {
      assert IsTrimmed(s);
    }
    ScanDigits(s);
    assert ScanDecimal(Trim(s)) == Some(Scan(DigitsValue(s) as real, |s|));
  }

  /** Decimal digits are read back as the number they denote. */
  lemma DigitsAreNumeric(n: nat)
    ensures StringToNumber(NatToString(n)) == Some(n as real)
    ensures ParseFloat(Str(NatToString(n))) == Some(n as real)
  {
    var s := NatToString(n);
    assert TrimStart(s) == s && Trim(s) == s by {
      assert IsTrimmed(s);
    }
    ScanDigits(s);
    NatToStringRoundTrip(n);
  }

  /** A text that starts (after whitespace) with neither a digit, a sign nor a point is NaN
      for `parseFloat`; "null" and "undefined" are two such texts. */
  lemma ParseFloatOfWord(s: string)
    requires |TrimStart(s)| > 0
    requires var c := TrimStart(s)[0]; !IsDigit(c) && c != '+' && c != '-' && c != '.'
    ensures ParseFloat(Str(s)) == None
  {
    var t := TrimStart(s);
    assert DigitRun(t, 0) == 0;
  }
}
