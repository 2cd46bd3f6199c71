/** JSON values as an Express handler sees them in `req.body` and `req.query`,
    and the two JavaScript coercions the InsureHub controllers depend on:
    ToNumber (behind `premium <= 0` and `isNaN(premium)`) and ToString (behind
    `format.test(date)`). */
module JsValues {

  datatype Option<T> = None | Some(value: T)

  /** A field of a parsed request. `JMissing` is `undefined`: the key is absent.
      Objects keep their keys in insertion order, as a JSON response shows them. */
  datatype JValue =
    | JMissing
    | JNull
    | JBool(b: bool)
    | JNum(n: real)
    | JStr(s: string)
    | JArr(items: seq<JValue>)
    | JObj(fields: seq<(string, JValue)>)

  /** A JavaScript number as the model keeps it: NaN or an exact real. A JSON
      literal too large for a double, such as `1e400`, is Infinity in JavaScript;
      the model keeps its exact value, which has the same sign. */
  datatype Number = NaN | Finite(value: real)

  predicate IsDigit(c: char) { '0' <= c <= '9' }

  predicate AllDigits(s: string) { forall i :: 0 <= i < |s| ==> IsDigit(s[i]) }

  function DigitValue(c: char): nat
    requires IsDigit(c)
  {
    c as int - '0' as int
  }

  function DigitChar(d: nat): (c: char)
    requires d < 10
    ensures IsDigit(c) && DigitValue(c) == d
  {
    ('0' as int + d) as char
  }

  /** Value of a run of decimal digits, most significant digit first. */
  function DigitsValue(s: string): nat
    requires AllDigits(s)
  {
    if s == [] then 0 else DigitsValue(s[..|s| - 1]) * 10 + DigitValue(s[|s| - 1])
  }

  /** Decimal digits of `n` without leading zeros, as `String(n)` writes a natural number. */
  function NatDigits(n: nat): (s: string)
    ensures s != [] && AllDigits(s)
  {
    if n < 10 then [DigitChar(n)] else NatDigits(n / 10) + [DigitChar(n % 10)]
  }

  /** `String(n)` for an integer `n`. */
  function IntString(n: int): string
  {
    if n < 0 then "-" + NatDigits(-n) else NatDigits(n)
  }

  function Pow10(k: nat): (r: nat)
    ensures r >= 1
  {
    if k == 0 then 1 else 10 * Pow10(k - 1)
  }

  /** StrWhiteSpaceChar of the ECMAScript grammar for string-to-number conversion:
      the WhiteSpace and LineTerminator code points. */
  predicate IsJsWhiteSpace(c: char)
  {
    c == '\t' || c == '\n' || c == '\U{B}' || c == '\U{C}' || c == '\r' || c == ' '
    || c == '\U{A0}' || c == '\U{1680}' || ('\U{2000}' <= c <= '\U{200A}')
    || c == '\U{2028}' || c == '\U{2029}' || c == '\U{202F}' || c == '\U{205F}'
    || c == '\U{3000}' || c == '\U{FEFF}'
  }

  /** Drops leading white space: the result is a suffix of `s`, everything dropped
      was white space and the result does not start with white space. */
  function TrimStart(s: string): (r: string)
    ensures |r| <= |s| && r == s[|s| - |r|..]
    ensures r == [] || !IsJsWhiteSpace(r[0])
    ensures forall i :: 0 <= i < |s| - |r| ==> IsJsWhiteSpace(s[i])
  {
    if s != [] && IsJsWhiteSpace(s[0]) then TrimStart(s[1..]) else s
  }

  /** Drops trailing white space: the result is a prefix of `s`, everything dropped
      was white space and the result does not end with white space. */
  function TrimEnd(s: string): (r: string)
    ensures |r| <= |s| && r == s[..|r|]
    ensures r == [] || !IsJsWhiteSpace(r[|r| - 1])
    ensures forall i :: |r| <= i < |s| ==> IsJsWhiteSpace(s[i])
  {
    if s != [] && IsJsWhiteSpace(s[|s| - 1]) then TrimEnd(s[..|s| - 1]) else s
  }

  function Trim(s: string): string
  {
    TrimEnd(TrimStart(s))
  }

  /** Position of the first character of `s` that is in `cs`, or `|s|` if none is. */
  function FindChar(s: string, cs: set<char>): (r: nat)
    ensures r <= |s|
    ensures forall i :: 0 <= i < r ==> s[i] !in cs
    ensures r < |s| ==> s[r] in cs
  {
    if s == [] || s[0] in cs then 0 else 1 + FindChar(s[1..], cs)
  }

  /** `m * 10^k` for a decimal exponent `k` of either sign. */
  function Scale(m: real, k: int): real
  {
    if k >= 0 then m * Pow10(k) as real else m / Pow10(-k) as real
  }

  /** The mantissa of a StrUnsignedDecimalLiteral: `digits`, `digits.`,
      `digits.digits` or `.digits`. */
  function ParseMantissa(m: string): Option<real>
  {
    var dot := FindChar(m, {'.'});
    var whole := m[..dot];
    var frac := if dot < |m| then m[dot + 1..] else [];
    if AllDigits(whole) && AllDigits(frac) && (whole != [] || frac != []) then
      Some(DigitsValue(whole) as real + DigitsValue(frac) as real / Pow10(|frac|) as real)
    else
      None
  }

  /** The SignedInteger after `e` or `E`. */
  function ParseExponent(x: string): Option<int>
  {
    var neg := x != [] && x[0] == '-';
    var digits := if x != [] && (x[0] == '-' || x[0] == '+') then x[1..] else x;
    if digits != [] && AllDigits(digits) then
      Some(if neg then -(DigitsValue(digits) as int) else DigitsValue(digits))
    else
      None
  }

  /** A StrUnsignedDecimalLiteral other than `Infinity`: a mantissa and an optional exponent. */
  function ParseUnsignedDecimal(u: string): Option<real>
  {
    var e := FindChar(u, {'e', 'E'});
    match ParseMantissa(u[..e])
    case None => None
    case Some(m) =>
      if e == |u| then Some(m)
      else match ParseExponent(u[e + 1..])
        case None => None
        case Some(k) => Some(Scale(m, k))
  }

  /** ToNumber applied to a string: white space alone (or nothing) is 0, a signed
      decimal literal surrounded by white space is its value, anything else is NaN. */
  function StringToNumber(s: string): Number
  {
    SignedDecimal(Trim(s))
  }

  /** A trimmed string as a number: empty is 0, then an optional sign and an
      unsigned decimal literal. */
  function SignedDecimal(t: string): Number
  {
    if t == [] then Finite(0.0)
    else
      var u := if t[0] == '-' || t[0] == '+' then t[1..] else t;
      match ParseUnsignedDecimal(u)
      case None => NaN
      case Some(v) => Finite(if t[0] == '-' then -v else v)
  }

  /** ToNumber, as `<=` against a number and `isNaN` apply it. An object goes
      through its string "[object Object]" (NaN); an array through the join of its
      elements with ',', in which `null` and `undefined` are empty. An object with
      an own `toString` key, such as `{"toString": 1}`, or an array that holds one
      at any position or depth, makes JavaScript's conversion throw a TypeError;
      the model does not capture that and reads such a value as it reads any
      other object or array. */
  function ToNumber(v: JValue): Number
  {
    match v
    case JMissing => NaN
    case JNull => Finite(0.0)
    case JBool(b) => Finite(if b then 1.0 else 0.0)
    case JNum(n) => Finite(n)
    case JStr(s) => StringToNumber(s)
    case JObj(_) => NaN
    case JArr(items) =>
      if |items| == 0 then Finite(0.0)
      // the joined string of two or more elements holds a ',', which no numeric literal has
      else if |items| > 1 then NaN
      else match items[0]
        case JNull => Finite(0.0)
        case JMissing => Finite(0.0)
        case JBool(_) => NaN   // "true" and "false" are not numeric literals
        case _ => ToNumber(items[0])
  }

  /** The string ToString gives for `v`, where the model spells it out. It is
      None for a number and for an array of two or more elements: the string of a
      number is its decimal or exponent form, and the join of several elements
      contains a ','. Every object is "[object Object]"; an object with an own
      `toString` key, or an array that holds one at any position or depth, makes
      JavaScript's conversion throw a TypeError instead, which the model does not
      capture. */
  function StringOf(v: JValue): Option<string>
  {
    match v
    case JMissing => Some("undefined")
    case JNull => Some("null")
    case JBool(b) => Some(if b then "true" else "false")
    case JNum(_) => None
    case JStr(s) => Some(s)
    case JObj(_) => Some("[object Object]")
    case JArr(items) =>
      if |items| == 0 then Some("")
      else if |items| > 1 then None
      else match items[0]
        case JNull => Some("")
        case JMissing => Some("")
        case _ => StringOf(items[0])
  }

  /** Reading back the digits of a natural number gives the number. */
  lemma {:induction false} NatDigitsRoundTrip(n: nat)
    ensures DigitsValue(NatDigits(n)) == n
  {
    if n >= 10 {
      NatDigitsRoundTrip(n / 10);
      var s := NatDigits(n);
      assert s[..|s| - 1] == NatDigits(n / 10);
    }
  }

  /** A search for characters `s` does not contain runs off its end. */
  lemma {:induction false} FindCharAbsent(s: string, cs: set<char>)
    requires forall i :: 0 <= i < |s| ==> s[i] !in cs
    ensures FindChar(s, cs) == |s|
  {
    if s != [] {
      assert forall i :: 0 <= i < |s| - 1 ==> s[1..][i] == s[i + 1];
      FindCharAbsent(s[1..], cs);
    }
  }

  /** A string of digits has no '.', 'e' or 'E' and reads back as its value. */
  lemma DigitsParse(u: string)
    requires u != [] && AllDigits(u)
    ensures ParseUnsignedDecimal(u) == Some(DigitsValue(u) as real)
  {
    FindCharAbsent(u, {'.'});
    var frac: string := [];
    assert DigitsValue(frac) == 0 && Pow10(|frac|) == 1;
    assert u[..|u|] == u;
    assert ParseMantissa(u) == Some(DigitsValue(u) as real);
    FindCharAbsent(u, {'e', 'E'});
  }

  /** A string that neither starts nor ends with white space is its own trim. */
  lemma TrimNoOp(s: string)
    requires s != [] && !IsJsWhiteSpace(s[0]) && !IsJsWhiteSpace(s[|s| - 1])
    ensures Trim(s) == s
  {
    assert TrimStart(s) == s;
  }

  /** A run of digits converts to its value. */
  lemma DigitsToNumber(d: string)
    requires d != [] && AllDigits(d)
    ensures StringToNumber(d) == Finite(DigitsValue(d) as real)
  {
    assert IsDigit(d[0]) && IsDigit(d[|d| - 1]);
    TrimNoOp(d);
    DigitsParse(d);
    assert SignedDecimal(d) == Finite(DigitsValue(d) as real);
  }

  /** A '-' followed by a run of digits converts to the negated value. */
  lemma NegatedDigitsToNumber(d: string)
    requires d != [] && AllDigits(d)
    ensures StringToNumber("-" + d) == Finite(-(DigitsValue(d) as real))
  {
    var s := "-" + d;
    assert s[|s| - 1] == d[|d| - 1];
    TrimNoOp(s);
    NegatedDigitsDecimal(d);
  }

  lemma NegatedDigitsDecimal(d: string)
    requires d != [] && AllDigits(d)
    ensures SignedDecimal("-" + d) == Finite(-(DigitsValue(d) as real))
  {
    var s := "-" + d;
    assert s[0] == '-' && s[1..] == d;
    DigitsParse(d);
  }

  /** A search stops at the first character of `s` that is in `cs`. */
  lemma {:induction false} FindCharAt(s: string, cs: set<char>, k: nat)
    requires k < |s| && s[k] in cs
    requires forall i :: 0 <= i < k ==> s[i] !in cs
    ensures FindChar(s, cs) == k
  {
    if k > 0 {
      assert forall i :: 0 <= i < k - 1 ==> s[1..][i] == s[i + 1];
      FindCharAt(s[1..], cs, k - 1);
    }
  }

  /** A literal without an exponent is its mantissa. */
  lemma NoExponent(u: string)
    requires forall i :: 0 <= i < |u| ==> u[i] != 'e' && u[i] != 'E'
    ensures ParseUnsignedDecimal(u) == ParseMantissa(u)
  {
    FindCharAbsent(u, {'e', 'E'});
    assert u[..|u|] == u;
  }

  /** The value of the decimal text `w.f`. */
  function DecimalValue(w: string, f: string): real
    requires AllDigits(w) && AllDigits(f)
  {
    DigitsValue(w) as real + DigitsValue(f) as real / Pow10(|f|) as real
  }

  /** Digits, a '.', digits: the text a form's number field sends. */
  predicate IsDecimalText(w: string, f: string)
  {
    w != [] && f != [] && AllDigits(w) && AllDigits(f)
  }

  /** The mantissa `w.f` reads as its decimal value. */
  lemma DecimalTextMantissa(w: string, f: string)
    requires IsDecimalText(w, f)
    ensures ParseMantissa(w + "." + f) == Some(DecimalValue(w, f))
  {
    var s := w + "." + f;
    assert s[|w|] == '.';
    forall i | 0 <= i < |w|
      ensures s[i] !in {'.'}
    {
      assert s[i] == w[i] && IsDigit(w[i]);
    }
    FindCharAt(s, {'.'}, |w|);
    assert s[..|w|] == w;
    assert s[|w| + 1..] == f;
  }

  /** `w.f` as an unsigned literal reads as its decimal value. */
  lemma DecimalTextParse(w: string, f: string)
    requires IsDecimalText(w, f)
    ensures ParseUnsignedDecimal(w + "." + f) == Some(DecimalValue(w, f))
  {
    var s := w + "." + f;
    forall i | 0 <= i < |s|
      ensures s[i] != 'e' && s[i] != 'E'
    {
      if i < |w| {
        assert s[i] == w[i] && IsDigit(w[i]);
      } else if i > |w| {
        assert s[i] == f[i - |w| - 1] && IsDigit(f[i - |w| - 1]);
      }
    }
    NoExponent(s);
    DecimalTextMantissa(w, f);
  }

  /** A decimal value is never negative, and it is zero exactly when all its
      digits are. */
  lemma DecimalValueSign(w: string, f: string)
    requires AllDigits(w) && AllDigits(f)
    ensures DecimalValue(w, f) >= 0.0
    ensures DecimalValue(w, f) == 0.0 <==> DigitsValue(w) == 0 && DigitsValue(f) == 0
  {
    var p := Pow10(|f|) as real;
    var fv := DigitsValue(f) as real;
    assert p >= 1.0;
    assert fv / p >= 0.0;
    if fv > 0.0 {
      assert fv / p > 0.0;
    }
  }

  /** The text `w.f` converts to its decimal value. */
  lemma DecimalTextToNumber(w: string, f: string)
    requires IsDecimalText(w, f)
    ensures StringToNumber(w + "." + f) == Finite(DecimalValue(w, f))
    ensures ToNumber(JStr(w + "." + f)) == Finite(DecimalValue(w, f))
  {
    var s := w + "." + f;
    assert s[0] == w[0] && s[|s| - 1] == f[|f| - 1];
    TrimNoOp(s);
    DecimalTextParse(w, f);
  }

  /** The text `-w.f` converts to the negated decimal value. */
  lemma NegativeDecimalTextToNumber(w: string, f: string)
    requires IsDecimalText(w, f)
    ensures StringToNumber("-" + (w + "." + f)) == Finite(-DecimalValue(w, f))
    ensures ToNumber(JStr("-" + (w + "." + f))) == Finite(-DecimalValue(w, f))
  {
    var s := "-" + (w + "." + f);
    assert s[|s| - 1] == f[|f| - 1];
    TrimNoOp(s);
    NegativeDecimalTextSigned(w, f);
  }

  lemma NegativeDecimalTextSigned(w: string, f: string)
    requires IsDecimalText(w, f)
    ensures SignedDecimal("-" + (w + "." + f)) == Finite(-DecimalValue(w, f))
  {
    var s := "-" + (w + "." + f);
    assert s[0] == '-' && s[1..] == w + "." + f;
    DecimalTextParse(w, f);
  }

  /** ToNumber reads `String(n)` back as `n`: a premium sent as the string of an
      integer compares like that integer. */
  lemma IntStringToNumber(n: int)
    ensures StringToNumber(IntString(n)) == Finite(n as real)
    ensures ToNumber(JStr(IntString(n))) == Finite(n as real)
  {
    if n < 0 {
      NegativeIntStringToNumber(n);
    } else {
      NatDigitsRoundTrip(n);
      DigitsToNumber(NatDigits(n));
    }
  }

  lemma NegativeIntStringToNumber(n: int)
    requires n < 0
    ensures StringToNumber(IntString(n)) == Finite(n as real)
  {
    var m: nat := -n;
    var d := NatDigits(m);
    assert IntString(n) == "-" + d;
    NatDigitsRoundTrip(m);
    NegatedDigitsToNumber(d);
    assert -(DigitsValue(d) as real) == n as real;
  }
}
