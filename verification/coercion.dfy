/**
 * The conversion `type(correct)(data)` that the assessor applies to a
 * submitted value: Python's `float(...)`, `int(...)` or `str(...)`, chosen by
 * the type of the item's reference answer.
 *
 * A float reference is modelled by the exact real number it denotes, and
 * `float(text)` by an exact decimal parse; `int(text)` and `str(int)` are
 * written out digit by digit.
 */
module Coercion {
  import opened Wrappers

  /** A reference answer (`correct` or `intuitive`), by its Python type. */
  datatype Reference = Num(x: real) | Int(i: int) | Str(s: string)

  /** A submitted value as the host keeps it in `question.data`. */
  datatype Data = Null | Text(s: string) | Whole(i: int)

  /** The Python exceptions this core can raise. */
  datatype Exception =
    | KeyError(key: string)     // `crt_items[name]` for an unregistered name
    | ValueError(text: string)  // `float(text)` or `int(text)` on text that is not a number
    | TypeError                 // `float(None)` or `int(None)`
    | AttributeError            // `question.page.embedded` when the question has no page

  /** True when two references have the same Python type. */
  predicate SameKind(a: Reference, b: Reference) {
    (a.Num? && b.Num?) || (a.Int? && b.Int?) || (a.Str? && b.Str?)
  }

  // ---------------------------------------------------------------------------
  // Characters and digit strings

  /** The ASCII characters that `str.strip`, `int` and `float` treat as white space. */
  predicate IsSpace(c: char) {
    c == ' ' || ('\t' <= c <= '\r') || ('\U{1c}' <= c <= '\U{1f}')
  }

  predicate IsDigit(c: char) {
    '0' <= c <= '9'
  }

  predicate AllDigits(s: string) {
    forall k :: 0 <= k < |s| ==> IsDigit(s[k])
  }

  function DigitValue(c: char): (d: nat)
    requires IsDigit(c)
    ensures d < 10
  {
    c as int - '0' as int
  }

  function DigitChar(d: nat): (c: char)
    requires d < 10
    ensures IsDigit(c) && DigitValue(c) == d
  {
    ('0' as int + d) as char
  }

  /** The number a string of decimal digits denotes, most significant digit first. */
  function DigitsValue(s: string): nat
    requires AllDigits(s)
  {
    if s == [] then 0 else DigitsValue(s[..|s| - 1]) * 10 + DigitValue(s[|s| - 1])
  }

  function Pow10(n: nat): (p: nat)
    ensures p > 0
  {
    if n == 0 then 1 else 10 * Pow10(n - 1)
  }

  /** The position of the first `c` in `s`, if any. */
  function IndexOf(s: string, c: char): (r: Option<nat>)
    ensures r.Some? ==> r.value < |s| && s[r.value] == c && c !in s[..r.value]
    ensures r.None? <==> c !in s
  {
    if s == [] then None
    else if s[0] == c then Some(0)
    else match IndexOf(s[1..], c)
      case None => None
      case Some(k) => Some(k + 1)
  }

  // ---------------------------------------------------------------------------
  // White space

  function StripLeft(s: string): (r: string)
    ensures |r| <= |s| && r == s[|s| - |r|..]
    ensures r != [] ==> !IsSpace(r[0])
    ensures forall k :: 0 <= k < |s| - |r| ==> IsSpace(s[k])
  {
    if s != [] && IsSpace(s[0]) then StripLeft(s[1..]) else s
  }

  function StripRight(s: string): (r: string)
    ensures |r| <= |s| && r == s[..|r|]
    ensures r != [] ==> !IsSpace(r[|r| - 1])
    ensures forall k :: |r| <= k < |s| ==> IsSpace(s[k])
  {
    if s != [] && IsSpace(s[|s| - 1]) then StripRight(s[..|s| - 1]) else s
  }

  /**
   * `s.strip()`: the part of `s` left when the white space at both ends is
   * removed. It is a slice of `s` that neither begins nor ends with white
   * space, and only white space lies outside it.
   */
  function Strip(s: string): (r: string)
    ensures |r| <= |s|
    ensures r != [] ==> !IsSpace(r[0]) && !IsSpace(r[|r| - 1])
    ensures exists a :: StrippedAt(s, r, a)
  {
    StripBothEnds(s);
    StripRight(StripLeft(s))
  }

  lemma StripBothEnds(s: string)
    ensures StrippedAt(s, StripRight(StripLeft(s)), |s| - |StripLeft(s)|)
  {
    TrimmedSlice(s, StripLeft(s), StripRight(StripLeft(s)));
  }

  /** Trimming white space off the front of `s` and then off the back leaves a slice with only white space outside it. */
  lemma TrimmedSlice(s: string, left: string, r: string)
    requires |left| <= |s| && left == s[|s| - |left|..]
    requires forall k :: 0 <= k < |s| - |left| ==> IsSpace(s[k])
    requires |r| <= |left| && r == left[..|r|]
    requires forall k :: |r| <= k < |left| ==> IsSpace(left[k])
    ensures StrippedAt(s, r, |s| - |left|)
  {
    var a := |s| - |left|;
    assert r == s[a..a + |r|];
    forall k | a + |r| <= k < |s|
      ensures IsSpace(s[k])
    {
      assert s[k] == left[k - a];
    }
  }

  /** `r` is the slice of `s` starting at `a`, and only white space lies outside it. */
  predicate StrippedAt(s: string, r: string, a: int) {
    && 0 <= a <= |s| - |r|
    && r == s[a..a + |r|]
    && (forall k :: 0 <= k < a ==> IsSpace(s[k]))
    && (forall k :: a + |r| <= k < |s| ==> IsSpace(s[k]))
  }

  lemma StripUnpadded(s: string)
    requires s != [] ==> !IsSpace(s[0]) && !IsSpace(s[|s| - 1])
    ensures Strip(s) == s
  {
  }

  // ---------------------------------------------------------------------------
  // int(text) and float(text)

  /** An optional leading sign: whether it was `-`, and the text after it. */
  function SplitSign(s: string): (bool, string) {
    if s != [] && (s[0] == '-' || s[0] == '+') then (s[0] == '-', s[1..]) else (false, s)
  }

  /**
   * `int(text)`: optional sign and decimal digits, white space around them
   * allowed. Accepted text ends, once stripped, in a digit, and gives a
   * negative number only after a `-`; a stripped text of digits alone is
   * always accepted.
   */
  function ParseInt(text: string): (r: Option<int>)
    ensures r.Some? ==> Strip(text) != [] && IsDigit(Strip(text)[|Strip(text)| - 1])
    ensures r.Some? && r.value < 0 ==> Strip(text)[0] == '-'
    ensures Strip(text) != [] && AllDigits(Strip(text)) ==> r.Some?
  {
    var (negative, body) := SplitSign(Strip(text));
    if body != [] && AllDigits(body) then
      var magnitude: int := DigitsValue(body);
      Some(if negative then -magnitude else magnitude)
    else None
  }

  /** An unsigned decimal numeral: digits with at most one point and at least one digit. */
  function DecimalValue(body: string): (r: Option<real>)
    ensures r.Some? ==> body != [] && r.value >= 0.0
  {
    match IndexOf(body, '.')
    case None =>
      if body != [] && AllDigits(body) then Some(DigitsValue(body) as real) else None
    case Some(k) =>
      var whole, fraction := body[..k], body[k + 1..];
      if |whole| + |fraction| > 0 && AllDigits(whole) && AllDigits(fraction) then
        Some(DigitsValue(whole) as real + DigitsValue(fraction) as real / Pow10(|fraction|) as real)
      else None
  }

  /**
   * `float(text)`, read as an exact decimal number. Accepted text is not
   * blank, gives a negative number only after a `-`, and a stripped text
   * of digits alone is always accepted.
   */
  function ParseFloat(text: string): (r: Option<real>)
    ensures r.Some? ==> Strip(text) != []
    ensures r.Some? && r.value < 0.0 ==> Strip(text)[0] == '-'
    ensures Strip(text) != [] && AllDigits(Strip(text)) ==> r.Some?
  {
    var (negative, body) := SplitSign(Strip(text));
    match DecimalValue(body)
    case None => None
    case Some(x) => Some(if negative then -x else x)
  }

  /** Text that begins with a character no numeral can begin with is read by neither `int` nor `float`. */
  lemma NonNumeralRejected(text: string)
    requires text != [] && !IsSpace(text[0])
    requires !IsDigit(text[0]) && text[0] !in "+-."
    ensures ParseInt(text) == None && ParseFloat(text) == None
  {
    assert StripLeft(text) == text;
    var r := Strip(text);
    assert r == text[..|r|];
    if r != [] {
      assert r[0] == text[0];
      assert SplitSign(r) == (false, r);
      match IndexOf(r, '.')
      case None =>
      case Some(k) =>
        assert k > 0 && r[..k][0] == r[0];
    }
  }

  // ---------------------------------------------------------------------------
  // str(int)

  function NatToString(n: nat): (s: string)
    ensures s != [] && AllDigits(s) && DigitsValue(s) == n
  {
    if n < 10 then [DigitChar(n)]
    else
      var s := NatToString(n / 10) + [DigitChar(n % 10)];
      assert s[..|s| - 1] == NatToString(n / 10);
      s
  }

  /** `str(i)` for an integer: the decimal digits of its magnitude, after a `-` exactly when it is negative. */
  function IntToString(i: int): (s: string)
    ensures s != [] && (s[0] == '-' <==> i < 0)
    ensures var digits := if i < 0 then s[1..] else s;
      digits != [] && AllDigits(digits) && DigitsValue(digits) == (if i < 0 then -i else i)
  {
    if i < 0 then "-" + NatToString(-i) else NatToString(i)
  }

  /** `int(str(i)) == i`: the decimal text of an integer reads back as that integer. */
  lemma ParseIntOfIntToString(i: int)
    ensures ParseInt(IntToString(i)) == Some(i)
  {
    var s := IntToString(i);
    var digits := if i < 0 then s[1..] else s;
    assert IsDigit(digits[0]) && IsDigit(digits[|digits| - 1]);
    assert s[|s| - 1] == digits[|digits| - 1];
    StripUnpadded(s);
    assert SplitSign(s) == (i < 0, digits);
  }

  /** Whatever `int(text)` accepts, `float(text)` accepts with the same value. */
  lemma ParseFloatExtendsParseInt(text: string)
    requires ParseInt(text).Some?
    ensures ParseFloat(text) == Some(ParseInt(text).value as real)
  {
    var (negative, body) := SplitSign(Strip(text));
    assert '.' !in body;
    assert DecimalValue(body) == Some(DigitsValue(body) as real);
  }

  /** `float(str(i)) == i`: the decimal text of an integer reads back as a float of equal value. */
  lemma ParseFloatOfIntToString(i: int)
    ensures ParseFloat(IntToString(i)) == Some(i as real)
  {
    ParseIntOfIntToString(i);
    ParseFloatExtendsParseInt(IntToString(i));
  }

  // ---------------------------------------------------------------------------
  // type(correct)(data)

  /** `type(reference)(data)`: the submitted value converted to the reference's type. */
  function Coerce(reference: Reference, data: Data): (r: Result<Reference, Exception>)
    ensures r.Success? ==> SameKind(r.value, reference)
    ensures r.Failure? <==>
      && !reference.Str?
      && (data.Null? || (data.Text? && (if reference.Num? then ParseFloat(data.s) == None else ParseInt(data.s) == None)))
    ensures r.Failure? ==> r.error == (if data.Null? then TypeError else ValueError(data.s))
  {
    match reference
    case Num(_) =>
      (match data
       case Null => Failure(TypeError)
       case Text(s) => if ParseFloat(s).Some? then Success(Num(ParseFloat(s).value)) else Failure(ValueError(s))
       case Whole(i) => Success(Num(i as real)))
    case Int(_) =>
      (match data
       case Null => Failure(TypeError)
       case Text(s) => if ParseInt(s).Some? then Success(Int(ParseInt(s).value)) else Failure(ValueError(s))
       case Whole(i) => Success(Int(i)))
    case Str(_) =>
      (match data
       case Null => Success(Str("None"))
       case Text(s) => Success(Str(s))
       case Whole(i) => Success(Str(IntToString(i))))
  }
}
