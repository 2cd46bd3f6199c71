/** `isDateValid`: the controllers' only format check, the regular expression
    `^\d\d-\d\d-\d\d\d\d$` tested against the string the argument converts to. */
module Dates {
  import opened JsValues

  /** One single-character element of the expression: `\d` (without the `u`
      flag, the ASCII digits 0-9) or a literal '-'. */
  datatype Atom = Digit | Dash

  /** `\d\d-\d\d-\d\d\d\d`; the commented-out two-digit-year form is not used. */
  const DatePattern: seq<Atom> := [Digit, Digit, Dash, Digit, Digit, Dash, Digit, Digit, Digit, Digit]

  predicate AtomMatches(a: Atom, c: char)
  {
    match a
    case Digit => IsDigit(c)
    case Dash => c == '-'
  }

  /** Anchored match (`^...$`) of a sequence of single-character atoms. */
  predicate Matches(p: seq<Atom>, s: string)
  {
    if p == [] then s == []
    else s != [] && AtomMatches(p[0], s[0]) && Matches(p[1..], s[1..])
  }

  /** `isDateValid(date)`: `format.test(date)`, which first converts `date` with ToString. */
  predicate IsDateValid(v: JValue)
  {
    match StringOf(v)
    case None => false
    case Some(t) => Matches(DatePattern, t)
  }

  /** The shape stated position by position: ten characters, '-' at positions 2
      and 5, an ASCII digit everywhere else. */
  predicate HasDateShape(s: string)
  {
    |s| == 10 && s[2] == '-' && s[5] == '-'
    && forall i :: 0 <= i < 10 && i != 2 && i != 5 ==> IsDigit(s[i])
  }

  /** An anchored match of single-character atoms is a position-by-position match
      of a string of the same length. */
  lemma {:induction false} MatchesPositionwise(p: seq<Atom>, s: string)
    ensures Matches(p, s) <==> |s| == |p| && forall i :: 0 <= i < |p| ==> AtomMatches(p[i], s[i])
  {
    if p != [] && s != [] {
      MatchesPositionwise(p[1..], s[1..]);
      if |s| == |p| && forall i :: 0 <= i < |p| ==> AtomMatches(p[i], s[i]) {
        assert forall i :: 0 <= i < |p| - 1 ==> AtomMatches(p[1..][i], s[1..][i]) by {
          forall i | 0 <= i < |p| - 1
            ensures AtomMatches(p[1..][i], s[1..][i])
          {
            assert AtomMatches(p[i + 1], s[i + 1]);
          }
        }
      }
      if Matches(p, s) {
        forall i | 0 <= i < |p|
          ensures AtomMatches(p[i], s[i])
        {
          if i > 0 {
            assert AtomMatches(p[1..][i - 1], s[1..][i - 1]);
          }
        }
      }
    }
  }

  /** The regular expression accepts exactly the strings of date shape. */
  lemma DatePatternExact(s: string)
    ensures Matches(DatePattern, s) <==> HasDateShape(s)
  {
    MatchesPositionwise(DatePattern, s);
    if HasDateShape(s) {
      forall i | 0 <= i < 10
        ensures AtomMatches(DatePattern[i], s[i])
      {
        if i != 2 && i != 5 {
          assert IsDigit(s[i]);
        }
      }
    }
    if Matches(DatePattern, s) {
      forall i | 0 <= i < 10 && i != 2 && i != 5
        ensures IsDigit(s[i])
      {
        assert AtomMatches(DatePattern[i], s[i]);
      }
      assert AtomMatches(DatePattern[2], s[2]) && AtomMatches(DatePattern[5], s[5]);
    }
  }

  /** On a string argument, `isDateValid` holds exactly for the date shape. */
  lemma DateValidOnStrings(s: string)
    ensures IsDateValid(JStr(s)) <==> HasDateShape(s)
  {
    DatePatternExact(s);
  }

  /** `undefined`, `null`, booleans, numbers and objects never pass: their strings
      ("undefined", "null", "true", "false", "[object Object]") are not of date shape. */
  lemma NonStringsAreNotDates(b: bool, n: real, fields: seq<(string, JValue)>)
    ensures !IsDateValid(JMissing) && !IsDateValid(JNull) && !IsDateValid(JBool(b))
    ensures !IsDateValid(JNum(n)) && !IsDateValid(JObj(fields))
  {
    DatePatternExact("undefined");
    DatePatternExact("null");
    DatePatternExact("true");
    DatePatternExact("false");
    DatePatternExact("[object Object]");
  }

  /** Besides a string, only a one-element array whose element passes can pass:
      ToString of `["07-30-2023"]` is "07-30-2023". */
  lemma {:induction false} DateValidOnlyStringsOrSingletons(v: JValue)
    ensures IsDateValid(v) ==> v.JStr? || (v.JArr? && |v.items| == 1 && IsDateValid(v.items[0]))
  {
    if v.JArr? && |v.items| == 1 && (v.items[0].JNull? || v.items[0].JMissing?) {
      DatePatternExact("");
    }
    if !v.JStr? && !v.JArr? {
      NonStringsAreNotDates(false, 0.0, []);
      if v.JBool? {
        NonStringsAreNotDates(v.b, 0.0, []);
      }
    }
    if v.JArr? && |v.items| == 0 {
      DatePatternExact("");
    }
  }

  /** The date shape, checked one position at a time. */
  lemma ShapeByPosition(s: string)
    requires |s| == 10 && s[2] == '-' && s[5] == '-'
    requires IsDigit(s[0]) && IsDigit(s[1]) && IsDigit(s[3]) && IsDigit(s[4])
    requires IsDigit(s[6]) && IsDigit(s[7]) && IsDigit(s[8]) && IsDigit(s[9])
    ensures HasDateShape(s)
  {
  }

  /** A date of the documented form passes. */
  lemma AcceptsDocumentedExample()
    ensures IsDateValid(JStr("07-30-2023"))
  {
    var a := "07-30-2023";
    ShapeByPosition(a);
    DateValidOnStrings(a);
  }

  /** No calendar check is made: month 99, day 99 pass. */
  lemma AcceptsNonCalendarDate()
    ensures IsDateValid(JStr("99-99-9999"))
  {
    var b := "99-99-9999";
    ShapeByPosition(b);
    DateValidOnStrings(b);
  }

  /** ToString of `["07-30-2023"]` is "07-30-2023", so the array form passes too. */
  lemma AcceptsSingletonArray()
    ensures IsDateValid(JArr([JStr("07-30-2023")]))
  {
    AcceptsDocumentedExample();
    assert StringOf(JArr([JStr("07-30-2023")])) == StringOf(JStr("07-30-2023"));
  }

  /** A four-digit year is required (the MM-DD-YY form of the doc comment fails),
      a one-digit month fails, and so do other separators and orders. */
  lemma RejectedExamples()
    ensures !IsDateValid(JStr("7-30-2023"))
    ensures !IsDateValid(JStr("07-30-23"))
    ensures !IsDateValid(JStr(""))
    ensures !IsDateValid(JStr("2023-07-30"))
    ensures !IsDateValid(JStr("07/30/2023"))
  {
    DateValidOnStrings("7-30-2023");
    DateValidOnStrings("07-30-23");
    DateValidOnStrings("");
    DateValidOnStrings("2023-07-30");
    DateValidOnStrings("07/30/2023");
  }
}
