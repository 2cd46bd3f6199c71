/** The payload validation of POST /policies and PUT /policies/:_id: seven
    guards tried in a fixed order, the first failing one deciding the 400 reply. */
module Validation {
  import opened JsValues
  import opened Dates

  /** The seven fields destructured from `req.body`; an absent key is `JMissing`. */
  datatype Body = Body(
    policyNumber: JValue,
    policyProvider: JValue,
    policyType: JValue,
    startDate: JValue,
    endDate: JValue,
    premium: JValue,
    paymentDate: JValue)

  /** The two routes that validate a payload. */
  datatype Route = Post | Put

  /** The guards, named by the field each one tests. */
  datatype Check =
    | PolicyNumberCheck
    | PolicyProviderCheck
    | PolicyTypeCheck
    | StartDateCheck
    | EndDateCheck
    | PremiumCheck
    | PaymentDateCheck

  /** The two copies of the controller differ only here: insurehub-rest names the
      failing field, insurehub_project/insurehub-rest always says "Invalid request". */
  datatype MessageStyle = FieldMessages | GenericMessage

  /** Position of a guard in the chain. */
  function Rank(c: Check): nat
  {
    match c
    case PolicyNumberCheck => 0
    case PolicyProviderCheck => 1
    case PolicyTypeCheck => 2
    case StartDateCheck => 3
    case EndDateCheck => 4
    case PremiumCheck => 5
    case PaymentDateCheck => 6
  }

  /** `typeof v === 'string' && v.length !== 0` */
  predicate IsNonEmptyString(v: JValue)
  {
    v.JStr? && |v.s| > 0
  }

  /** `v <= 0`: false whenever `v` converts to NaN. */
  predicate AtMostZero(v: JValue)
  {
    ToNumber(v).Finite? && ToNumber(v).value <= 0.0
  }

  /** `isNaN(v)` */
  predicate IsNaN(v: JValue)
  {
    ToNumber(v).NaN?
  }

  /** The premium guard: POST tests `premium <= 0`, PUT `isNaN(premium) || premium <= 0`. */
  predicate PremiumRejected(route: Route, v: JValue)
  {
    match route
    case Post => AtMostZero(v)
    case Put => IsNaN(v) || AtMostZero(v)
  }

  /** Whether the body gets past guard `c` of `route`. */
  predicate Passes(route: Route, c: Check, b: Body)
  {
    match c
    case PolicyNumberCheck => IsNonEmptyString(b.policyNumber)
    case PolicyProviderCheck => IsNonEmptyString(b.policyProvider)
    case PolicyTypeCheck => IsNonEmptyString(b.policyType)
    case StartDateCheck => IsDateValid(b.startDate)
    case EndDateCheck => IsDateValid(b.endDate)
    case PremiumCheck => !PremiumRejected(route, b.premium)
    case PaymentDateCheck => IsDateValid(b.paymentDate)
  }

  /** The conjunction of the seven guards. */
  predicate AllPass(route: Route, b: Body)
  {
    forall c :: Passes(route, c, b)
  }

  /** The guard chain as the handlers run it: the first guard that fails, if any.
      None exactly when every guard passes; otherwise the reported guard fails and
      every guard before it passes. */
  function FirstFailure(route: Route, b: Body): (r: Option<Check>)
    ensures r.None? <==> AllPass(route, b)
    ensures r.Some? ==> !Passes(route, r.value, b)
    ensures r.Some? ==> forall c :: Rank(c) < Rank(r.value) ==> Passes(route, c, b)
  {
    if !Passes(route, PolicyNumberCheck, b) then Some(PolicyNumberCheck)
    else if !Passes(route, PolicyProviderCheck, b) then Some(PolicyProviderCheck)
    else if !Passes(route, PolicyTypeCheck, b) then Some(PolicyTypeCheck)
    else if !Passes(route, StartDateCheck, b) then Some(StartDateCheck)
    else if !Passes(route, EndDateCheck, b) then Some(EndDateCheck)
    else if !Passes(route, PremiumCheck, b) then Some(PremiumCheck)
    else if !Passes(route, PaymentDateCheck, b) then Some(PaymentDateCheck)
    else None
  }

  /** The `Error` text of the 400 reply for a failed guard. */
  function Message(style: MessageStyle, c: Check): string
  {
    match style
    case GenericMessage => "Invalid request"
    case FieldMessages =>
      match c
      case PolicyNumberCheck => "Policy number is invalid or missing"
      case PolicyProviderCheck => "Policy provider is invalid or missing"
      case PolicyTypeCheck => "Policy type is invalid or missing"
      case StartDateCheck => "Start date is invalid"
      case EndDateCheck => "End date is invalid"
      case PremiumCheck => "Premium must be greater than zero"
      case PaymentDateCheck => "Payment date is invalid"
  }

  /** With field messages the text identifies the failed guard. */
  lemma FieldMessagesIdentifyCheck(c1: Check, c2: Check)
    ensures Message(FieldMessages, c1) == Message(FieldMessages, c2) <==> c1 == c2
  {
    // the lengths differ, except for the two 33-character messages, whose second letters differ
    var m := Message(FieldMessages, PolicyTypeCheck);
    var m' := Message(FieldMessages, PremiumCheck);
    assert |Message(FieldMessages, PolicyNumberCheck)| == 35;
    assert |Message(FieldMessages, PolicyProviderCheck)| == 37;
    assert |m| == 33 && m[1] == 'o';
    assert |Message(FieldMessages, StartDateCheck)| == 21;
    assert |Message(FieldMessages, EndDateCheck)| == 19;
    assert |m'| == 33 && m'[1] == 'r';
    assert |Message(FieldMessages, PaymentDateCheck)| == 23;
  }

  /** PUT's premium guard is the stricter: it rejects everything POST's rejects,
      and the premiums only PUT rejects are exactly those that convert to NaN. */
  lemma PutPremiumGuardIsStricter(v: JValue)
    ensures PremiumRejected(Post, v) ==> PremiumRejected(Put, v)
    ensures PremiumRejected(Put, v) && !PremiumRejected(Post, v) <==> IsNaN(v)
  {
  }

  /** Premium examples: 0 and -5 are rejected and 0.01 accepted by both routes; a
      missing or non-numeric premium gets past POST's guard but not PUT's. */
  lemma PremiumExamples()
    ensures PremiumRejected(Post, JNum(0.0)) && PremiumRejected(Put, JNum(0.0))
    ensures PremiumRejected(Post, JNum(-5.0)) && PremiumRejected(Put, JNum(-5.0))
    ensures !PremiumRejected(Post, JNum(0.01)) && !PremiumRejected(Put, JNum(0.01))
    ensures !PremiumRejected(Post, JMissing) && PremiumRejected(Put, JMissing)
    ensures !PremiumRejected(Post, JObj([])) && PremiumRejected(Put, JObj([]))
  {
  }

  /** JavaScript's loose comparison lets `null`, `false` and `[]` (all 0) fail the
      premium guard of both routes, and `true` (1) pass it. */
  lemma LooseComparisonExamples()
    ensures PremiumRejected(Post, JNull) && PremiumRejected(Put, JNull)
    ensures PremiumRejected(Post, JBool(false)) && PremiumRejected(Put, JBool(false))
    ensures PremiumRejected(Post, JArr([])) && PremiumRejected(Put, JArr([]))
    ensures !PremiumRejected(Post, JBool(true)) && !PremiumRejected(Put, JBool(true))
  {
  }

  /** The premium is not type-checked: the string of an integer is judged like the
      integer itself, by both routes. */
  lemma IntegerStringPremium(n: int, route: Route)
    ensures PremiumRejected(route, JStr(IntString(n))) <==> n <= 0
  {
    var v := JStr(IntString(n));
    IntStringToNumber(n);
    assert AtMostZero(v) <==> n <= 0;
    assert !IsNaN(v);
  }

  /** A premium sent as decimal text `w.f`, as the policy form sends it, is
      rejected by either route exactly when it is zero; the text `-w.f` is always
      rejected. */
  lemma DecimalTextPremium(route: Route, w: string, f: string)
    requires IsDecimalText(w, f)
    ensures PremiumRejected(route, JStr(w + "." + f)) <==> DigitsValue(w) == 0 && DigitsValue(f) == 0
    ensures PremiumRejected(route, JStr("-" + (w + "." + f)))
  {
    var pos, neg := JStr(w + "." + f), JStr("-" + (w + "." + f));
    var x := DecimalValue(w, f);
    DecimalTextToNumber(w, f);
    NegativeDecimalTextToNumber(w, f);
    DecimalValueSign(w, f);
    assert ToNumber(pos) == Finite(x) && ToNumber(neg) == Finite(-x);
    assert AtMostZero(pos) <==> x == 0.0;
    assert AtMostZero(neg);
  }

  /** "0.01" passes both routes' premium guard and "-0.5" fails both. */
  lemma FractionStringPremium(route: Route)
    ensures !PremiumRejected(route, JStr("0.01"))
    ensures PremiumRejected(route, JStr("-0.5"))
  {
    assert "0" + "." + "01" == "0.01";
    assert "-" + ("0" + "." + "5") == "-0.5";
    assert DigitsValue("01") == 1;
    DecimalTextPremium(route, "0", "01");
    DecimalTextPremium(route, "0", "5");
  }

  /** A string the controller cannot read as a number gets past POST's guard and
      not PUT's. */
  lemma NonNumericStringPremium()
    ensures !PremiumRejected(Post, JStr("abc")) && PremiumRejected(Put, JStr("abc"))
  {
    var u := "abc";
    assert FindChar(u, {'e', 'E'}) == 3;
    assert FindChar(u, {'.'}) == 3;
    assert !AllDigits(u) by { assert !IsDigit(u[0]); }
    assert u[..3] == u;
    assert ParseMantissa(u) == None;
    assert ParseUnsignedDecimal(u) == None;
    TrimNoOp(u);
    assert StringToNumber(u) == NaN;
  }

  /** Only the first failing guard is reported: an empty policy number together with
      a bad start date is reported as the policy number. */
  lemma FirstFailureExample(route: Route, rest: Body)
    ensures FirstFailure(route, rest.(policyNumber := JStr(""), startDate := JStr("bad")))
         == Some(PolicyNumberCheck)
  {
  }
}
