/** The React sign-up form of src/App.js: the phone formatter applied on every
    keystroke, the completeness test that gates submission, and the two state
    updates. The form's state is a value; each handler returns the next state. */
module SignUpForm {
  import opened JsText

  datatype FormData = FormData(firstName: string, lastName: string, phone: string)

  datatype Field = FirstName | LastName | Phone

  function Get(form: FormData, field: Field): string
  {
    match field
    case FirstName => form.firstName
    case LastName => form.lastName
    case Phone => form.phone
  }

  function Min(a: int, b: int): int
  {
    if a <= b then a else b
  }

  /** `formatPhoneNumber`: keep the digits, then lay out at most ten of them as
      `(ddd) ddd-dddd`, stopping early for shorter inputs. */
  function FormatPhoneNumber(value: string): (r: string)
    ensures var n := |Digits(value)|;
            |r| == if n >= 6 then 4 + Min(n, 10) else if n >= 3 then n + 3 else n
    ensures |Digits(value)| < 3 ==> r == Digits(value)
    ensures |Digits(value)| >= 3 ==> r[0] == '(' && r[4..6] == ") "
    ensures |Digits(value)| >= 6 ==> r[9] == '-'
  {
    var d := Digits(value);
    var n := |d|;
    if n >= 6 then "(" + d[..3] + ") " + d[3..6] + "-" + d[6..Min(n, 10)]
    else if n >= 3 then "(" + d[..3] + ") " + d[3..]
    else d
  }

  /** The formatted number never exceeds the input's `maxLength` of 14. */
  lemma FormatFitsMaxLength(value: string)
    ensures |FormatPhoneNumber(value)| <= 14
  {
  }

  /** The formatted number holds exactly the first min(n, 10) digits of the input,
      in order, where n is the input's digit count. */
  lemma FormatKeepsDigits(value: string)
    ensures Digits(FormatPhoneNumber(value)) == Digits(value)[..Min(|Digits(value)|, 10)]
  {
    var d := Digits(value);
    var n := |d|;
    if n >= 6 {
      DigitsOfLongLayout(d[..3], d[3..6], d[6..Min(n, 10)]);
      assert d[..3] + d[3..6] + d[6..Min(n, 10)] == d[..Min(n, 10)];
    } else if n >= 3 {
      DigitsOfShortLayout(d[..3], d[3..]);
      assert d[..3] + d[3..] == d;
    } else {
      DigitsOfDigits(d);
    }
  }

  /** Formatting an already formatted number changes nothing, so re-applying the
      formatter on each keystroke is harmless. */
  lemma FormatIdempotent(value: string)
    ensures FormatPhoneNumber(FormatPhoneNumber(value)) == FormatPhoneNumber(value)
  {
    var d := Digits(value);
    var n := |d|;
    var m := Min(n, 10);
    FormatKeepsDigits(value);
    var e := Digits(FormatPhoneNumber(value));
    assert e == d[..m];
    if n >= 6 {
      assert e[..3] == d[..3] && e[3..6] == d[3..6] && e[6..Min(|e|, 10)] == d[6..m];
    } else if n >= 3 {
      assert e[..3] == d[..3] && e[3..] == d[3..];
    } else {
      assert e == d;
    }
  }

  /** `isFormComplete`: both names hold something other than white space, and the
      phone field has at least 14 characters. */
  function IsFormComplete(form: FormData): (r: bool)
    ensures r <==> !Blank(form.firstName) && !Blank(form.lastName) && |form.phone| >= 14
  {
    Trim(form.firstName) != [] && Trim(form.lastName) != [] && |form.phone| >= 14
  }

  /** For a phone the formatter produced, the length test means at least ten digits,
      and then the phone is exactly 14 characters long. */
  lemma FormattedPhoneComplete(value: string)
    ensures |FormatPhoneNumber(value)| >= 14 <==> |Digits(value)| >= 10
    ensures |FormatPhoneNumber(value)| >= 14 ==> |FormatPhoneNumber(value)| == 14
  {
  }

  /** `handleInputChange(field, value)`: the named field takes the value and the
      others keep theirs. */
  function HandleInputChange(form: FormData, field: Field, value: string): (r: FormData)
    ensures Get(r, field) == value
    ensures forall other: Field :: other != field ==> Get(r, other) == Get(form, other)
  {
    match field
    case FirstName => form.(firstName := value)
    case LastName => form.(lastName := value)
    case Phone => form.(phone := value)
  }

  /** `handlePhoneChange`: the phone field takes the formatted input. */
  function HandlePhoneChange(form: FormData, input: string): (r: FormData)
    ensures r.firstName == form.firstName && r.lastName == form.lastName
    ensures r.phone == FormatPhoneNumber(input)
    ensures |r.phone| <= 14 && Digits(r.phone) == Digits(input)[..Min(|Digits(input)|, 10)]
  {
    FormatKeepsDigits(input);
    HandleInputChange(form, Phone, FormatPhoneNumber(input))
  }

  datatype FormState = FormState(data: FormData, isSubmitted: bool, isLoading: bool)

  /** `handleSubmit`: an incomplete form leaves the state as it is; a complete one
      starts loading. */
  function HandleSubmit(state: FormState): (r: FormState)
    ensures !IsFormComplete(state.data) ==> r == state
    ensures IsFormComplete(state.data) ==> r.isLoading && r.data == state.data && r.isSubmitted == state.isSubmitted
  {
    if !IsFormComplete(state.data) then state else state.(isLoading := true)
  }
}
