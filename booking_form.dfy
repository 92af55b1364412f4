/** The barber booking form of script.js: the rule table and `validateField`, the
    blur handler's decision, the phone `input` re-formatter, the submit-time loop over
    the rule table, and the label shown for a time slot. The DOM around them (error
    elements, scrolling, date and weekend checks) is not modelled. */
module BookingForm {
  import opened JsBase
  import opened JsText
  import opened Patterns

  /** The three regular expressions the rule table uses. */
  datatype Pattern = NamePat | EmailPat | PhonePat

  predicate Matches(p: Pattern, s: string)
  {
    match p
    case NamePat => NamePattern(s)
    case EmailPat => EmailPattern(s)
    case PhonePat => PhonePattern(s)
  }

  /** One entry of `validationRules`; a `minLength` of 0 stands for an absent one. */
  datatype Rule = Rule(required: bool, minLength: nat, pattern: Option<Pattern>, message: string)

  const FirstNameMessage := "First name must be at least 2 characters and contain only letters"
  const LastNameMessage := "Last name must be at least 2 characters and contain only letters"
  const EmailMessage := "Please enter a valid email address"
  const PhoneMessage := "Please enter a valid phone number"
  const ServiceMessage := "Please select a service"
  const DateMessage := "Please select a date"
  const TimeMessage := "Please select a time"
  const TermsMessage := "You must agree to the terms and conditions"

  /** The keys of `validationRules`, in the order `Object.keys` lists them. */
  const RuleFields: seq<string> := ["firstName", "lastName", "email", "phone", "service", "date", "time", "terms"]

  /** `validationRules[fieldName]`. */
  function Rules(fieldName: string): (r: Option<Rule>)
    ensures r.Some? <==> fieldName in RuleFields
    ensures r.Some? ==> r.value.required && r.value.message != ""
    ensures r.Some? && r.value.minLength > 0 ==> fieldName in {"firstName", "lastName"}
  {
    if fieldName == "firstName" then Some(Rule(true, 2, Some(NamePat), FirstNameMessage))
    else if fieldName == "lastName" then Some(Rule(true, 2, Some(NamePat), LastNameMessage))
    else if fieldName == "email" then Some(Rule(true, 0, Some(EmailPat), EmailMessage))
    else if fieldName == "phone" then Some(Rule(true, 0, Some(PhonePat), PhoneMessage))
    else if fieldName == "service" then Some(Rule(true, 0, None, ServiceMessage))
    else if fieldName == "date" then Some(Rule(true, 0, None, DateMessage))
    else if fieldName == "time" then Some(Rule(true, 0, None, TimeMessage))
    else if fieldName == "terms" then Some(Rule(true, 0, None, TermsMessage))
    else None
  }

  /** What `validateField` returns: `true` for a field without rules, an error
      message, or `null` when every check passes. */
  datatype Verdict = NoRules | Invalid(message: string) | Passed

  /** `rules.message || \`${fieldName} is required\``. */
  function RequiredMessage(fieldName: string, rule: Rule): (m: string)
    ensures m != ""
    ensures rule.message != "" ==> m == rule.message
  {
    if rule.message != "" then rule.message else fieldName + " is required"
  }

  /** The value passes every check of the rule. */
  predicate Satisfies(rule: Rule, value: string)
  {
    (!rule.required || !Blank(value))
    && (rule.minLength == 0 || |value| >= rule.minLength)
    && (rule.pattern.None? || Matches(rule.pattern.value, value))
  }

  /** `validateField(fieldName, value)` for a string value: required, then minimum
      length, then pattern; the first failing check gives the message. */
  function ValidateField(fieldName: string, value: string): (r: Verdict)
    ensures r == NoRules <==> Rules(fieldName).None?
    ensures r == Passed <==> Rules(fieldName).Some? && Satisfies(Rules(fieldName).value, value)
    ensures Rules(fieldName).Some? && Blank(value) ==> r == Invalid(Rules(fieldName).value.message)
    ensures r.Invalid? ==> r.message == Rules(fieldName).value.message
  {
    var rules := Rules(fieldName);
    if rules.None? then NoRules
    else
      var rule := rules.value;
      if rule.required && (value == "" || Trim(value) == "") then Invalid(RequiredMessage(fieldName, rule))
      else if rule.minLength != 0 && |value| < rule.minLength then Invalid(rule.message)
      else if rule.pattern.Some? && !Matches(rule.pattern.value, value) then Invalid(rule.message)
      else Passed
  }

  /** The name fields accept at least two characters, letters and white space only,
      not all of them white space. */
  lemma NameFieldAccepts(fieldName: string, value: string)
    requires fieldName == "firstName" || fieldName == "lastName"
    ensures ValidateField(fieldName, value) == Passed <==>
              |value| >= 2 && !Blank(value) && forall i :: 0 <= i < |value| ==> IsLetter(value[i]) || IsSpace(value[i])
  {
  }

  /** The email field accepts exactly the addresses the email pattern matches. */
  lemma {:induction false} EmailFieldAccepts(value: string)
    ensures ValidateField("email", value) == Passed <==> EmailPattern(value)
  {
    if EmailPattern(value) {
      var i :| 0 < i < |value| && value[i] == '@' && EmailRun(value[..i]) && DomainPart(value[i + 1..]);
      assert !IsSpace(value[0]) by {
        assert EmailChar(value[..i][0]);
      }
    }
  }

  /** The select fields accept anything that is not blank. */
  lemma SelectFieldAccepts(fieldName: string, value: string)
    requires fieldName in {"service", "date", "time"}
    ensures ValidateField(fieldName, value) == Passed <==> !Blank(value)
  {
  }

  /** A formatted phone number: its digit-free characters are laid out around the
      digits. What the phone `input` handler leaves in the field for a given input. */
  function PhoneInputLayout(input: string): (r: string)
    ensures Digits(r) == Digits(input)
    ensures var n := |Digits(input)|;
            (3 <= n < 6 ==> |r| == n + 3) &&
            (n < 3 || 6 <= n < 10 ==> r == Digits(input)) &&
            (3 <= n < 6 || n >= 10 ==> r[0] == '(' && r[4..6] == ") ") &&
            (n >= 10 ==> r[9] == '-' && |r| == n + 4)
  {
    var d := Digits(input);
    var n := |d|;
    DigitsOfDigits(d);
    if n >= 10 then
      DigitsOfLongLayout(d[..3], d[3..6], d[6..10] + d[10..]);
      assert d[..3] + d[3..6] + (d[6..10] + d[10..]) == d;
      "(" + d[..3] + ") " + d[3..6] + "-" + (d[6..10] + d[10..])
    else if n >= 3 && n < 6 then
      DigitsOfShortLayout(d[..3], d[3..]);
      assert d[..3] + d[3..] == d;
      "(" + d[..3] + ") " + d[3..]
    else d
  }

  /** The phone `input` handler: strip the non-digits, then rewrite the value with the
      first of the two regular expressions that applies. On a string of digits,
      `(\d{3})(\d{3})(\d{4})` matches only when there are at least ten, and then at the
      start; `(\d{3})(\d{0,3})` matches at the start and takes every digit when there
      are three to five. */
  method FormatPhoneInput(input: string) returns (value: string)
    ensures value == PhoneInputLayout(input)
    ensures Digits(value) == Digits(input)
  {
    value := Digits(input);
    if |value| >= 6 {
      if |value| >= 10 {
        value := "(" + value[..3] + ") " + value[3..6] + "-" + value[6..10] + value[10..];
      }
    } else if |value| >= 3 {
      value := "(" + value[..3] + ") " + value[3..];
    }
  }

  /** Re-formatting what the handler left in the field changes nothing. */
  lemma PhoneInputIdempotent(input: string)
    ensures PhoneInputLayout(PhoneInputLayout(input)) == PhoneInputLayout(input)
  {
  }

  /** Every number the handler lays out with parentheses fails the phone rule, since
      the pattern wants a digit or `+` first: a ten-digit number typed into the field
      can never pass validation. */
  lemma FormattedPhoneRejected(input: string)
    requires 3 <= |Digits(input)| < 6 || |Digits(input)| >= 10
    ensures ValidateField("phone", PhoneInputLayout(input)) == Invalid(PhoneMessage)
  {
  }

  lemma TenDigitPhoneRejected()
    ensures ValidateField("phone", "(555) 123-4567") == Invalid(PhoneMessage)
  {
    var v := "(555) 123-4567";
    assert v[0] == '(' && !IsSpace(v[0]);
  }

  /** `validateField` with the phone pattern tested on the phone's digits, so that a
      number the input handler formatted is judged by its digits. */
  function ValidateFieldIntended(fieldName: string, value: string): (r: Verdict)
    ensures fieldName != "phone" ==> r == ValidateField(fieldName, value)
    ensures fieldName == "phone" ==> r == ValidateField(fieldName, Digits(value))
  {
    if fieldName == "phone" then ValidateField(fieldName, Digits(value)) else ValidateField(fieldName, value)
  }

  /** With the intended check, a formatted number of ten to sixteen digits that does
      not start with 0 passes. */
  lemma FormattedPhoneAccepted(input: string)
    requires 10 <= |Digits(input)| <= 16 && Digits(input)[0] != '0'
    ensures ValidateFieldIntended("phone", PhoneInputLayout(input)) == Passed
  {
    var d := Digits(input);
    assert Digits(PhoneInputLayout(input)) == d;
    assert IsDigit(d[0]) && d[0] != '+' && !IsSpace(d[0]);
    assert !Blank(d);
    assert PhonePattern(d);
  }

  /** The text the blur handler shows for a field, or `None` when it clears the error.
      The `terms` checkbox is judged by whether it is checked. For other fields the
      verdict of `validateField` is shown when it is truthy, and that includes the
      `true` returned for a field without rules. */
  function BlurError(fieldName: string, value: string, checked: bool): (r: Option<string>)
    ensures fieldName == "terms" ==> (r.None? <==> checked) && (!checked ==> r == Some(TermsMessage))
    ensures fieldName != "terms" && Rules(fieldName).Some? ==>
              (r.None? <==> Satisfies(Rules(fieldName).value, value)) &&
              (r.Some? ==> r.value == Rules(fieldName).value.message)
    ensures Rules(fieldName).None? ==> r == Some("true")
  {
    if fieldName == "terms" then
      if !checked then Some(TermsMessage) else None
    else
      match ValidateField(fieldName, value)
      case NoRules => Some("true")
      case Invalid(message) => if message != "" then Some(message) else None
      case Passed => None
  }

  /** The booking form's fields as the submit handler reads them: the value of each
      text or select field and whether the terms box is checked. */
  datatype Booking = Booking(firstName: string, lastName: string, email: string, phone: string,
                             service: string, date: string, time: string, terms: bool)

  function FieldValue(b: Booking, fieldName: string): string
  {
    if fieldName == "firstName" then b.firstName
    else if fieldName == "lastName" then b.lastName
    else if fieldName == "email" then b.email
    else if fieldName == "phone" then b.phone
    else if fieldName == "service" then b.service
    else if fieldName == "date" then b.date
    else if fieldName == "time" then b.time
    else ""
  }

  /** Whether a field of the booking passes at submit, with the intended checks: the
      terms box by being checked, the other fields by `ValidateFieldIntended`. */
  predicate FieldPasses(b: Booking, fieldName: string)
  {
    if fieldName == "terms" then b.terms else ValidateFieldIntended(fieldName, FieldValue(b, fieldName)).Passed?
  }

  /** The fields of `fields` that fail, in order. */
  function FailingFields(b: Booking, fields: seq<string>): (r: seq<string>)
    ensures |r| <= |fields|
    ensures forall f :: f in r <==> f in fields && !FieldPasses(b, f)
  {
    if fields == [] then []
    else FailingFields(b, fields[..|fields| - 1]) + (if FieldPasses(b, fields[|fields| - 1]) then [] else [fields[|fields| - 1]])
  }

  lemma FailingStep(b: Booking, fields: seq<string>, i: nat)
    requires i < |fields|
    ensures FailingFields(b, fields[..i + 1]) ==
              FailingFields(b, fields[..i]) + (if FieldPasses(b, fields[i]) then [] else [fields[i]])
  {
    assert fields[..i + 1][..i] == fields[..i];
  }

  /** No field fails exactly when every field passes. */
  lemma NoneFailing(b: Booking, fields: seq<string>)
    ensures FailingFields(b, fields) == [] <==> forall i :: 0 <= i < |fields| ==> FieldPasses(b, fields[i])
  {
    if FailingFields(b, fields) != [] {
      assert FailingFields(b, fields)[0] in FailingFields(b, fields);
    }
  }

  /** The submit handler's loop over the rule table, with the terms box judged by
      being checked and the phone by its digits. */
  method ValidateOnSubmit(b: Booking) returns (isValid: bool, invalidFields: seq<string>)
    ensures invalidFields == FailingFields(b, RuleFields)
    ensures isValid <==> forall i :: 0 <= i < |RuleFields| ==> FieldPasses(b, RuleFields[i])
  {
    isValid := true;
    invalidFields := [];
    var i := 0;
    while i < |RuleFields|
      invariant 0 <= i <= |RuleFields|
      invariant invalidFields == FailingFields(b, RuleFields[..i])
      invariant isValid <==> invalidFields == []
    {
      var fieldName := RuleFields[i];
      FailingStep(b, RuleFields, i);
      if !FieldPasses(b, fieldName) {
        isValid := false;
        invalidFields := invalidFields + [fieldName];
      }
      i := i + 1;
    }
    assert RuleFields[..i] == RuleFields;
    NoneFailing(b, RuleFields);
  }

  /** How the submit handler ends as written. */
  datatype SubmitOutcome = Submitted | Blocked | Threw

  /** The submit handler as written: the loop hands the terms box's boolean to
      `validateField`, so an unchecked box fails the required check, and a checked one
      reaches `true.trim()`, which throws. The form is never submitted. */
  method SubmitAsWritten(b: Booking) returns (outcome: SubmitOutcome)
    ensures b.terms ==> outcome == Threw
    ensures !b.terms ==> outcome == Blocked
    ensures outcome != Submitted
  {
    var isValid := true;
    var i := 0;
    while i < |RuleFields|
      invariant 0 <= i <= |RuleFields|
      invariant i == |RuleFields| ==> !b.terms && !isValid
    {
      var fieldName := RuleFields[i];
      if fieldName == "terms" {
        if b.terms {
          return Threw;
        }
        isValid := false;
      } else if !ValidateField(fieldName, FieldValue(b, fieldName)).Passed? {
        isValid := false;
      }
      i := i + 1;
    }
    outcome := if isValid then Submitted else Blocked;
  }

  /** `s.split(':')`. */
  function SplitColon(s: string): (r: seq<string>)
    ensures |r| >= 1
  {
    if s == [] then [""]
    else
      var rest := SplitColon(s[1..]);
      if s[0] == ':' then [""] + rest else [[s[0]] + rest[0]] + rest[1..]
  }

  /** The label of a time option: the value with ` AM` before noon, `12:00 PM` for
      noon, and otherwise the hour less twelve with the minutes and ` PM`. An hour
      `parseInt` cannot read shows as `NaN`, and a value without a colon shows its
      minutes as `undefined`. */
  function TimeLabel(time: string): string
  {
    if StrLess(time, "12:00") then time + " AM"
    else if time == "12:00" then "12:00 PM"
    else
      var parts := SplitColon(time);
      var hour := ParseInt(parts[0]);
      var minutes := if |parts| > 1 then parts[1] else "undefined";
      (if hour.None? then "NaN" else IntToString(hour.value - 12)) + ":" + minutes + " PM"
  }

  /** A time option value `HH:MM`. */
  predicate ClockTime(t: string)
  {
    |t| == 5 && IsDigit(t[0]) && IsDigit(t[1]) && t[2] == ':' && IsDigit(t[3]) && IsDigit(t[4])
  }

  function Hour(t: string): nat
    requires ClockTime(t)
  {
    10 * (t[0] as int - '0' as int) + (t[1] as int - '0' as int)
  }

  /** On clock values, the string comparison with `12:00` compares the hours. */
  lemma BeforeNoon(t: string)
    requires ClockTime(t)
    ensures StrLess(t, "12:00") <==> Hour(t) < 12
  {
    var noon := "12:00";
    if t[0] != '1' {
      StrLessFirstDiff(t, noon, 0);
    } else if t[1] != '2' {
      StrLessFirstDiff(t, noon, 1);
    } else if t[3] != '0' {
      assert t[..3] == noon[..3];
      StrLessFirstDiff(t, noon, 3);
    } else if t[4] != '0' {
      assert t[..4] == noon[..4];
      StrLessFirstDiff(t, noon, 4);
    } else {
      assert t == noon;
      StrLessTrichotomy(t, noon);
    }
  }

  /** A string without a colon splits into itself. */
  lemma {:induction false} SplitColonNone(s: string)
    requires forall k :: 0 <= k < |s| ==> s[k] != ':'
    ensures SplitColon(s) == [s]
  {
    if s != [] {
      SplitColonNone(s[1..]);
      assert [s[0]] + s[1..] == s;
    }
  }

  /** Splitting at the first colon. */
  lemma {:induction false} SplitColonAt(s: string, i: nat)
    requires i < |s| && s[i] == ':' && forall k :: 0 <= k < i ==> s[k] != ':'
    ensures SplitColon(s) == [s[..i]] + SplitColon(s[i + 1..])
  {
    if i > 0 {
      SplitColonAt(s[1..], i - 1);
      assert [s[0]] + s[1..][..i - 1] == s[..i];
      assert s[1..][i..] == s[i + 1..];
    }
  }

  lemma ClockSplit(t: string)
    requires ClockTime(t)
    ensures SplitColon(t) == [t[..2], t[3..]]
  {
    SplitColonAt(t, 2);
    SplitColonNone(t[3..]);
  }

  lemma ClockHour(t: string)
    requires ClockTime(t)
    ensures ParseInt(t[..2]) == Some(Hour(t))
  {
    var h := t[..2];
    assert !IsSpace(h[0]) && h[0] != '-' && h[0] != '+';
    assert TrimStart(h) == h;
    assert SkipSign(h) == h;
    DigitPrefixOfDigits(h);
    assert h[..1][..0] == [];
    assert DecimalValue(h[..1]) == t[0] as int - '0' as int;
  }

  /** The label of every clock value, by case. */
  lemma TimeLabelOfClock(t: string)
    requires ClockTime(t)
    ensures Hour(t) < 12 ==> TimeLabel(t) == t + " AM"
    ensures t == "12:00" ==> TimeLabel(t) == "12:00 PM"
    ensures Hour(t) >= 12 && t != "12:00" ==> TimeLabel(t) == IntToString(Hour(t) - 12) + ":" + t[3..] + " PM"
  {
    BeforeNoon(t);
    if Hour(t) >= 12 && t != "12:00" {
      AfternoonParts(t);
    }
  }

  /** The hour and minutes an afternoon clock value is split into. */
  lemma AfternoonParts(t: string)
    requires ClockTime(t)
    ensures |SplitColon(t)| > 1 && SplitColon(t)[1] == t[3..]
    ensures ParseInt(SplitColon(t)[0]) == Some(Hour(t))
  {
    ClockSplit(t);
    ClockHour(t);
  }

  /** Every value in the hour after noon, such as `12:30`, is labelled with hour 0. */
  lemma NoonHourLabel(t: string)
    requires ClockTime(t) && Hour(t) == 12 && t != "12:00"
    ensures TimeLabel(t) == "0:" + t[3..] + " PM"
  {
    TimeLabelOfClock(t);
    var zero := IntToString(Hour(t) - 12);
    assert zero == "0";
    assert zero + ":" == "0:";
  }

  /** The label with the hours of 12 o'clock kept as 12. */
  function TimeLabelFixed(time: string): string
  {
    if StrLess(time, "12:00") then time + " AM"
    else if time == "12:00" then "12:00 PM"
    else
      var parts := SplitColon(time);
      var hour := ParseInt(parts[0]);
      var minutes := if |parts| > 1 then parts[1] else "undefined";
      (if hour.None? then "NaN" else IntToString(if hour.value == 12 then 12 else hour.value - 12)) + ":" + minutes + " PM"
  }

  /** Every afternoon clock value gets an hour from 1 to 12 and keeps its minutes. */
  lemma TimeLabelFixedOfClock(t: string)
    requires ClockTime(t) && 12 <= Hour(t) < 24 && t != "12:00"
    ensures TimeLabelFixed(t) == IntToString(if Hour(t) == 12 then 12 else Hour(t) - 12) + ":" + t[3..] + " PM"
  {
    BeforeNoon(t);
    AfternoonParts(t);
  }

  /** In the hour after noon the corrected label keeps hour 12. */
  lemma NoonHourLabelFixed(t: string)
    requires ClockTime(t) && Hour(t) == 12 && t != "12:00"
    ensures TimeLabelFixed(t) == "12:" + t[3..] + " PM"
  {
    TimeLabelFixedOfClock(t);
    assert IntToString(12) == "12";
  }
}
