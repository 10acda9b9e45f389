/** The JavaScript primitive values a request body's fields can carry, and
    the two coercions the stores rely on: truthiness (`!x`, `if (x)`) and
    `Number(x)` (ToNumber, with StringToNumber for text, as ECMA-262 defines
    them). A parsed JSON body can also carry arrays and objects as field
    values; those are not modelled. Numbers are modelled as integers on
    input and as exact reals on output; binary64 rounding is not modelled. */
module JsValues {

  import opened Outcomes

  /** A primitive JSON field value as seen by JavaScript. `Undefined` stands
      for a key that the object does not carry. */
  datatype JsValue = Undefined | Null | Bool(b: bool) | Num(n: int) | Str(s: string)

  /** JavaScript truthiness: undefined, null, false, 0 and "" are falsy. */
  predicate Truthy(v: JsValue)
  {
    match v
    case Undefined => false
    case Null => false
    case Bool(b) => b
    case Num(n) => n != 0
    case Str(s) => s != ""
  }

  /** What ToNumber produces. */
  datatype Numeric = NaN | Finite(value: real) | Infinity(negative: bool)

  /** `Number(v)` */
  function ToNumber(v: JsValue): Numeric
  {
    match v
    case Undefined => NaN
    case Null => Finite(0.0)
    case Bool(b) => Finite(if b then 1.0 else 0.0)
    case Num(n) => Finite(n as real)
    case Str(s) => StringToNumber(s)
  }

  /** `!isNaN(Number(v))` */
  predicate IsNumeric(v: JsValue)
  {
    ToNumber(v) != NaN
  }

  /** The number `v` is compared as when it meets a number under `==`
      (IsLooselyEqual of ECMA-262): a string or a boolean is converted with
      ToNumber; null and undefined equal no number, so they stand as NaN. */
  function LooseNumber(v: JsValue): Numeric
  {
    match v
    case Undefined => NaN
    case Null => NaN
    case _ => ToNumber(v)
  }

  /** `n == v` for a number `n`. */
  predicate LooseEquals(n: int, v: JsValue)
  {
    LooseNumber(v) == Finite(n as real)
  }

  // ---------------------------------------------------------------------
  // StringToNumber: the StringNumericLiteral grammar of ECMA-262.

  /** WhiteSpace and LineTerminator code points, which StringToNumber trims. */
  predicate IsWhiteSpace(c: char)
  {
    || c == '\t' || c == '\n' || c == '\U{000B}' || c == '\U{000C}' || c == '\r'
    || c == ' ' || c == '\U{00A0}' || c == '\U{1680}' || ('\U{2000}' <= c <= '\U{200A}')
    || c == '\U{2028}' || c == '\U{2029}' || c == '\U{202F}' || c == '\U{205F}'
    || c == '\U{3000}' || c == '\U{FEFF}'
  }

  function TrimStart(s: string): string
  {
    if s != [] && IsWhiteSpace(s[0]) then TrimStart(s[1..]) else s
  }

  function TrimEnd(s: string): string
  {
    if s != [] && IsWhiteSpace(s[|s| - 1]) then TrimEnd(s[..|s| - 1]) else s
  }

  function Trim(s: string): string
  {
    TrimEnd(TrimStart(s))
  }

  predicate IsDecimalDigit(c: char)
  {
    '0' <= c <= '9'
  }

  /** The value of a digit in base 16 or below; 16 for a character that is
      no such digit. */
  function DigitValue(c: char): (d: nat)
    ensures d <= 16
    ensures IsDecimalDigit(c) <==> d < 10
  {
    if '0' <= c <= '9' then c as int - '0' as int
    else if 'a' <= c <= 'f' then c as int - 'a' as int + 10
    else if 'A' <= c <= 'F' then c as int - 'A' as int + 10
    else 16
  }

  /** The value of the digit string `ds` read in base `radix`, most
      significant digit first. */
  function DigitsValue(ds: string, radix: nat): nat
  {
    if ds == [] then 0
    else DigitsValue(ds[..|ds| - 1], radix) * radix + DigitValue(ds[|ds| - 1])
  }

  function Pow10(n: nat): (p: nat)
    ensures p >= 1
  {
    if n == 0 then 1 else 10 * Pow10(n - 1)
  }

  /** m * 10^e as an exact real */
  function Scale(m: nat, e: int): real
  {
    if e >= 0 then (m * Pow10(e)) as real else m as real / Pow10(-e) as real
  }

  /** The end of the run of decimal digits that starts at `k`. */
  function DigitRun(s: string, k: nat): (e: nat)
    requires k <= |s|
    ensures k <= e <= |s|
    ensures forall i :: k <= i < e ==> IsDecimalDigit(s[i])
    ensures e == |s| || !IsDecimalDigit(s[e])
    decreases |s| - k
  {
    if k < |s| && IsDecimalDigit(s[k]) then DigitRun(s, k + 1) else k
  }

  /** The letter after the `0` of a `0x`, `0o` or `0b` prefix. */
  predicate IsRadixLetter(c: char)
  {
    c == 'x' || c == 'X' || c == 'o' || c == 'O' || c == 'b' || c == 'B'
  }

  function Radix(c: char): nat
  {
    if c == 'x' || c == 'X' then 16 else if c == 'o' || c == 'O' then 8 else 2
  }

  /** The text after a `0x`, `0o` or `0b` prefix: one or more digits of the radix. */
  function NonDecimalValue(ds: string, radix: nat): Numeric
  {
    if ds != [] && forall i :: 0 <= i < |ds| ==> DigitValue(ds[i]) < radix
    then Finite(DigitsValue(ds, radix) as real)
    else NaN
  }

  /** An optional ExponentPart (`e` or `E`, an optional sign, decimal digits)
      that must run to the end of `s`. */
  function Exponent(s: string): Option<int>
  {
    if s == [] then Some(0)
    else if s[0] != 'e' && s[0] != 'E' then None
    else
      var signed := |s| > 1 && (s[1] == '+' || s[1] == '-');
      var ds := if signed then s[2..] else s[1..];
      if ds == [] || DigitRun(ds, 0) != |ds| then None
      else if signed && s[1] == '-' then Some(-(DigitsValue(ds, 10) as int))
      else Some(DigitsValue(ds, 10) as int)
  }

  /** StrUnsignedDecimalLiteral other than `Infinity`: `12`, `12.`, `12.5`,
      `.5`, each with an optional exponent. */
  function UnsignedDecimal(s: string): Numeric
  {
    var i := DigitRun(s, 0);
    var hasPoint := i < |s| && s[i] == '.';
    var j := if hasPoint then DigitRun(s, i + 1) else i;
    var digits := s[..i] + (if hasPoint then s[i + 1..j] else []);
    if digits == [] then NaN
    else match Exponent(s[j..])
      case None => NaN
      case Some(e) => Finite(Scale(DigitsValue(digits, 10), e - (if hasPoint then j - i - 1 else 0)))
  }

  /** StrDecimalLiteral: an optional sign, then `Infinity` or an unsigned literal. */
  function DecimalValue(t: string): Numeric
    requires t != []
  {
    var negative := t[0] == '-';
    var body := if t[0] == '+' || t[0] == '-' then t[1..] else t;
    if body == "Infinity" then Infinity(negative)
    else match UnsignedDecimal(body)
      case Finite(r) => Finite(if negative then -r else r)
      case other => other
  }

  /** `Number(s)` for a string `s`: blank text is 0, otherwise the trimmed
      text must be one whole numeric literal, or the result is NaN. */
  function StringToNumber(s: string): Numeric
  {
    var t := Trim(s);
    if t == [] then Finite(0.0)
    else if |t| >= 2 && t[0] == '0' && IsRadixLetter(t[1]) then NonDecimalValue(t[2..], Radix(t[1]))
    else DecimalValue(t)
  }

  // ---------------------------------------------------------------------
  // Decimal text of a number, and the round trip through StringToNumber.

  function DigitChar(d: nat): char
    requires d < 10
  {
    ('0' as int + d) as char
  }

  /** The decimal text of `n`, as `String(n)` writes it for `n` below
      10^21 (from there on `String` switches to exponent notation, such as
      `1e+21`). */
  function DecimalText(n: nat): (s: string)
    ensures s != []
    ensures forall i :: 0 <= i < |s| ==> IsDecimalDigit(s[i])
  {
    if n < 10 then [DigitChar(n)] else DecimalText(n / 10) + [DigitChar(n % 10)]
  }

  lemma {:induction false} DecimalTextValue(n: nat)
    ensures DigitsValue(DecimalText(n), 10) == n
  {
    var s := DecimalText(n);
    if n < 10 {
      assert s[..|s| - 1] == [];
    } else {
      assert s[..|s| - 1] == DecimalText(n / 10);
      DecimalTextValue(n / 10);
    }
  }

  /** Text that neither starts nor ends with white space is left as it is. */
  lemma TrimUnchanged(s: string)
    requires s != [] && !IsWhiteSpace(s[0]) && !IsWhiteSpace(s[|s| - 1])
    ensures Trim(s) == s
  {
    assert TrimStart(s) == s;
  }

  /** An unsigned literal made of decimal digits only has their value. */
  lemma UnsignedDigits(s: string)
    requires s != []
    requires forall i :: 0 <= i < |s| ==> IsDecimalDigit(s[i])
    ensures UnsignedDecimal(s) == Finite(DigitsValue(s, 10) as real)
  {
    assert DigitRun(s, 0) == |s|;
    assert s[..|s|] == s;
    assert s[|s|..] == [];
    assert Exponent([]) == Some(0);
    assert s[..|s|] + [] == s;
    assert Pow10(0) == 1;
    assert Scale(DigitsValue(s, 10), 0) == DigitsValue(s, 10) as real;
  }

  /** Trimmed text with no `0x`, `0o` or `0b` prefix is read as a
      StrDecimalLiteral. */
  lemma DecimalWhenNoPrefix(s: string)
    requires s != [] && !IsWhiteSpace(s[0]) && !IsWhiteSpace(s[|s| - 1])
    requires |s| >= 2 ==> s[0] != '0' || !IsRadixLetter(s[1])
    ensures StringToNumber(s) == DecimalValue(s)
  {
    TrimUnchanged(s);
  }

  /** Without a sign and other than `Infinity`, a StrDecimalLiteral is an
      unsigned literal. */
  lemma UnsignedWhenNoSign(t: string)
    requires t != [] && t[0] != '+' && t[0] != '-' && t != "Infinity"
    ensures DecimalValue(t) == UnsignedDecimal(t)
  {
  }

  /** Text made of decimal digits only is read back as the number it spells. */
  lemma DigitStringToNumber(s: string)
    requires s != []
    requires forall i :: 0 <= i < |s| ==> IsDecimalDigit(s[i])
    ensures StringToNumber(s) == Finite(DigitsValue(s, 10) as real)
  {
    assert IsDecimalDigit(s[0]) && IsDecimalDigit(s[|s| - 1]);
    if |s| >= 2 {
      assert IsDecimalDigit(s[1]);
    }
    DecimalWhenNoPrefix(s);
    assert IsDecimalDigit(s[0]);
    assert s != "Infinity" by { assert "Infinity"[0] == 'I'; }
    UnsignedWhenNoSign(s);
    UnsignedDigits(s);
  }

  /** `Number(String(n)) == n`: the decimal text of a number converts back to it. */
  lemma DecimalTextRoundTrip(n: nat)
    ensures StringToNumber(DecimalText(n)) == Finite(n as real)
    ensures IsNumeric(Str(DecimalText(n)))
    ensures LooseEquals(n, Str(DecimalText(n)))
  {
    DigitStringToNumber(DecimalText(n));
    DecimalTextValue(n);
  }

  /** A number equals (`==`) the decimal text of `n` exactly when it is `n`. */
  lemma LooseEqualsDecimalText(m: int, n: nat)
    ensures LooseEquals(m, Str(DecimalText(n))) <==> m == n
  {
    DecimalTextRoundTrip(n);
    assert (m as real == n as real) <==> m == n;
  }
}
