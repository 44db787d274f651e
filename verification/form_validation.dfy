/** The front end's form validation (frontend/src/utils/validation.ts): a
    field is checked against a rule (required, length bounds, a pattern and a
    custom check) and every failing check adds its message; a form is the
    rule set applied field by field. */
module FormValidation {
  import opened Wrappers
  import opened Js

  /** A validation rule. An absent bound and a bound of 0 both mean "no
      bound"; the custom check returns an error message or nothing, and an
      empty message counts as nothing. */
  datatype Rule = Rule(
    required: bool,
    minLength: Option<int>,
    maxLength: Option<int>,
    pattern: Option<string -> bool>,
    custom: Option<string -> Option<string>>)

  datatype ValidationResult = ValidationResult(isValid: bool, errors: seq<string>)

  const RequiredMessage := "This field is required"
  const FormatMessage := "Invalid format"

  function MinMessage(n: int): string { "Minimum length is " + IntToString(n) + " characters" }
  function MaxMessage(n: int): string { "Maximum length is " + IntToString(n) + " characters" }

  /** A missing value, the empty string, or one that trims to nothing. */
  predicate Blank(value: Option<string>) {
    value.None? || Trim(value.value) == ""
  }

  predicate TooShort(s: string, rules: Rule) {
    rules.minLength.Some? && rules.minLength.value != 0 && |s| < rules.minLength.value
  }

  predicate TooLong(s: string, rules: Rule) {
    rules.maxLength.Some? && rules.maxLength.value != 0 && |s| > rules.maxLength.value
  }

  predicate Malformed(s: string, rules: Rule) {
    rules.pattern.Some? && !rules.pattern.value(s)
  }

  predicate CustomRejects(s: string, rules: Rule) {
    rules.custom.Some? && TruthyString(rules.custom.value(s))
  }

  /** What a rule accepts, stated check by check. */
  predicate Accepts(value: Option<string>, rules: Rule) {
    if Blank(value) then !rules.required
    else
      var s := value.value;
      !TooShort(s, rules) && !TooLong(s, rules) && !Malformed(s, rules) && !CustomRejects(s, rules)
  }

  function Count(b: bool): nat { if b then 1 else 0 }

  function When(failed: bool, message: string): seq<string> {
    if failed then [message] else []
  }

  /** The messages for a non-blank value: one per failing check, in the
      order minimum length, maximum length, pattern, custom. */
  function FieldErrors(s: string, rules: Rule): (errors: seq<string>)
    ensures |errors| == Count(TooShort(s, rules)) + Count(TooLong(s, rules)) + Count(Malformed(s, rules)) + Count(CustomRejects(s, rules))
    ensures errors == [] <==> !TooShort(s, rules) && !TooLong(s, rules) && !Malformed(s, rules) && !CustomRejects(s, rules)
    ensures TooShort(s, rules) ==> errors[0] == MinMessage(rules.minLength.value)
    ensures TooLong(s, rules) ==> errors[Count(TooShort(s, rules))] == MaxMessage(rules.maxLength.value)
    ensures Malformed(s, rules) ==> errors[Count(TooShort(s, rules)) + Count(TooLong(s, rules))] == FormatMessage
    ensures CustomRejects(s, rules) ==> errors[|errors| - 1] == rules.custom.value(s).value
  {
    var short := if TooShort(s, rules) then [MinMessage(rules.minLength.value)] else [];
    var long := if TooLong(s, rules) then [MaxMessage(rules.maxLength.value)] else [];
    var custom := if CustomRejects(s, rules) then [rules.custom.value(s).value] else [];
    short + long + When(Malformed(s, rules), FormatMessage) + custom
  }

  /** `validateField`: a blank value reports only whether it was required;
      any other value gets the messages of its failing checks. */
  function ValidateField(value: Option<string>, rules: Rule): (r: ValidationResult)
    ensures r.isValid <==> r.errors == []
    ensures r.isValid <==> Accepts(value, rules)
    ensures Blank(value) ==> |r.errors| <= 1 && (r.errors == [RequiredMessage] <==> rules.required)
    ensures !Blank(value) ==> r.errors == FieldErrors(value.value, rules)
  {
    var errors := if Blank(value) then When(rules.required, RequiredMessage) else FieldErrors(value.value, rules);
    ValidationResult(|errors| == 0, errors)
  }

  /** With a minimum no larger than the maximum, a value cannot be both too
      short and too long, so at most one length message is reported. */
  lemma LengthErrorsExclusive(value: Option<string>, rules: Rule)
    requires rules.minLength.Some? && rules.maxLength.Some? && rules.minLength.value <= rules.maxLength.value
    requires !Blank(value)
    ensures !(TooShort(value.value, rules) && TooLong(value.value, rules))
    ensures |ValidateField(value, rules).errors| <= 3
  {
  }

  // ----------------------------------------------------------------- forms

  /** A validation result per field, in the order of the rule set. */
  type FormResults = seq<(string, ValidationResult)>

  /** The value of a field, missing when the form has no entry for it. */
  function Lookup(formData: map<string, string>, name: string): Option<string> {
    if name in formData then Some(formData[name]) else None
  }

  /** `validateForm`: every field of the rule set, validated against its rule. */
  function ValidateForm(formData: map<string, string>, rules: seq<(string, Rule)>): (r: FormResults)
    ensures |r| == |rules|
    ensures forall i :: 0 <= i < |r| ==>
      r[i].0 == rules[i].0 && r[i].1 == ValidateField(Lookup(formData, rules[i].0), rules[i].1)
  {
    if rules == [] then []
    else [(rules[0].0, ValidateField(Lookup(formData, rules[0].0), rules[0].1))] + ValidateForm(formData, rules[1..])
  }

  /** `isFormValid`: every field passed. */
  function IsFormValid(results: FormResults): (b: bool)
    ensures b <==> forall i :: 0 <= i < |results| ==> results[i].1.isValid
  {
    if results == [] then true else results[0].1.isValid && IsFormValid(results[1..])
  }

  /** `getFormErrors`: the messages of all fields, field after field. */
  function GetFormErrors(results: FormResults): (r: seq<string>)
    ensures forall i, j :: 0 <= i < |results| && 0 <= j < |results[i].1.errors| ==> results[i].1.errors[j] in r
    ensures forall e :: e in r ==> exists i :: 0 <= i < |results| && e in results[i].1.errors
  {
    if results == [] then [] else results[0].1.errors + GetFormErrors(results[1..])
  }

  /** Collecting the errors of two runs of fields one after the other gives
      the errors of the first run followed by those of the second. */
  lemma {:induction false} GetFormErrorsConcatenates(a: FormResults, b: FormResults)
    ensures GetFormErrors(a + b) == GetFormErrors(a) + GetFormErrors(b)
  {
    if a != [] {
      assert (a + b)[1..] == a[1..] + b;
      GetFormErrorsConcatenates(a[1..], b);
    } else {
      assert a + b == b;
    }
  }

  /** Results whose validity flag agrees with their message list, as every
      result of `validateField` does. */
  predicate Consistent(results: FormResults) {
    forall i :: 0 <= i < |results| ==> (results[i].1.isValid <==> results[i].1.errors == [])
  }

  /** For consistent results, the form is valid exactly when it has no errors. */
  lemma {:induction false} ValidIffNoErrors(results: FormResults)
    requires Consistent(results)
    ensures IsFormValid(results) <==> GetFormErrors(results) == []
  {
    if results != [] {
      assert Consistent(results[1..]) by {
        forall i | 0 <= i < |results[1..]|
          ensures results[1..][i].1.isValid <==> results[1..][i].1.errors == []
        {
          assert results[1..][i] == results[i + 1];
        }
      }
      ValidIffNoErrors(results[1..]);
    }
  }

  /** A validated form is valid exactly when it has no errors, and exactly
      when every field's rule accepts the field's value. */
  lemma FormValidIffEveryFieldAccepts(formData: map<string, string>, rules: seq<(string, Rule)>)
    ensures IsFormValid(ValidateForm(formData, rules)) <==> GetFormErrors(ValidateForm(formData, rules)) == []
    ensures IsFormValid(ValidateForm(formData, rules)) <==>
      forall i :: 0 <= i < |rules| ==> Accepts(Lookup(formData, rules[i].0), rules[i].1)
  {
    ValidIffNoErrors(ValidateForm(formData, rules));
  }

  // ------------------------------------------------------------ common rules

  /** `[^\s@]`. */
  predicate EmailChar(c: char) {
    c != '@' && !IsWhitespace(c)
  }

  /** `/^[^\s@]+@[^\s@]+\.[^\s@]+$/`: exactly one `@`, not first, and a dot
      somewhere after the character that follows it, not last; no white space. */
  predicate EmailShape(s: string) {
    exists i :: 0 < i < |s| && s[i] == '@'
      && (forall k :: 0 <= k < |s| && k != i ==> EmailChar(s[k]))
      && (exists j :: i + 1 < j < |s| - 1 && s[j] == '.')
  }

  const EmailCustomMessage := "Please enter a valid email address"

  function EmailCustom(s: string): Option<string> {
    if !EmailShape(s) then Some(EmailCustomMessage) else None
  }

  const EmailRule := Rule(true, None, None, Some(EmailShape), Some(EmailCustom))

  /** The custom check repeats the pattern, so a malformed email is reported twice. */
  lemma MalformedEmailReportedTwice(s: string)
    requires Trim(s) != "" && !EmailShape(s)
    ensures ValidateField(Some(s), EmailRule).errors == [FormatMessage, EmailCustomMessage]
  {
  }

  predicate HasLower(s: string) { exists i :: 0 <= i < |s| && IsLower(s[i]) }
  predicate HasUpper(s: string) { exists i :: 0 <= i < |s| && IsUpper(s[i]) }
  predicate HasDigit(s: string) { exists i :: 0 <= i < |s| && IsDigit(s[i]) }

  /** The password check: the first unmet requirement, in the order length,
      lower case, upper case, digit. */
  function PasswordCustom(s: string): (r: Option<string>)
    ensures r.None? <==> |s| >= 8 && HasLower(s) && HasUpper(s) && HasDigit(s)
    ensures r.Some? ==> r.value != ""
  {
    if |s| < 8 then Some("Password must be at least 8 characters long")
    else if !HasLower(s) then Some("Password must contain at least one lowercase letter")
    else if !HasUpper(s) then Some("Password must contain at least one uppercase letter")
    else if !HasDigit(s) then Some("Password must contain at least one number")
    else None
  }

  const PasswordRule := Rule(true, Some(8), None, None, Some(PasswordCustom))

  /** A password is accepted exactly when it is not blank, has at least eight
      characters and has a lower-case letter, an upper-case letter and a digit. */
  lemma PasswordAcceptedIff(s: string)
    ensures ValidateField(Some(s), PasswordRule).isValid <==>
      Trim(s) != "" && |s| >= 8 && HasLower(s) && HasUpper(s) && HasDigit(s)
  {
    var r := PasswordRule;
    assert TooShort(s, r) <==> |s| < 8;
    assert !TooLong(s, r) && !Malformed(s, r);
    assert CustomRejects(s, r) <==> PasswordCustom(s).Some?;
  }

  /** A short password is reported by the length bound and again by the custom check. */
  lemma ShortPasswordReportedTwice(s: string)
    requires Trim(s) != "" && |s| < 8
    ensures ValidateField(Some(s), PasswordRule).errors
      == [MinMessage(8), "Password must be at least 8 characters long"]
  {
    var rule := PasswordRule;
    var message := "Password must be at least 8 characters long";
    assert rule.custom.value(s) == Some(message);
    assert TooShort(s, rule) && !TooLong(s, rule) && !Malformed(s, rule) && CustomRejects(s, rule);
    var e := FieldErrors(s, rule);
    assert |e| == 2 && e[0] == MinMessage(8) && e[1] == message;
  }

  /** `/^[a-zA-Z\s]+$/`. */
  predicate NameShape(s: string) {
    |s| > 0 && forall i :: 0 <= i < |s| ==> IsLower(s[i]) || IsUpper(s[i]) || IsWhitespace(s[i])
  }

  const NameCustomMessage := "Name can only contain letters and spaces"

  function NameCustom(s: string): Option<string> {
    if !NameShape(s) then Some(NameCustomMessage) else None
  }

  const NameRule := Rule(true, Some(2), Some(50), Some(NameShape), Some(NameCustom))

  /** A name is accepted exactly when it is 2 to 50 letters and spaces, not all spaces. */
  lemma NameAcceptedIff(s: string)
    ensures ValidateField(Some(s), NameRule).isValid <==> Trim(s) != "" && 2 <= |s| <= 50 && NameShape(s)
  {
    var r := NameRule;
    assert TooShort(s, r) <==> |s| < 2;
    assert TooLong(s, r) <==> |s| > 50;
    assert Malformed(s, r) <==> !NameShape(s);
    assert CustomRejects(s, r) <==> !NameShape(s);
  }

  /** `[\s\-\(\)]`: the characters the phone check strips. */
  predicate PhoneSeparator(c: char) {
    IsWhitespace(c) || c == '-' || c == '(' || c == ')'
  }

  /** `/^\+?[\d\s\-\(\)]+$/`: an optional plus sign, then at least one digit
      or separator. */
  predicate PhoneShape(s: string) {
    var body := if |s| > 0 && s[0] == '+' then s[1..] else s;
    |body| > 0 && forall i :: 0 <= i < |body| ==> IsDigit(body[i]) || PhoneSeparator(body[i])
  }

  /** `value.replace(/[\s\-\(\)]/g, '')`. */
  function StripSeparators(s: string): (r: string)
    ensures |r| <= |s|
    ensures forall i :: 0 <= i < |r| ==> !PhoneSeparator(r[i])
    ensures forall c :: multiset(r)[c] == if PhoneSeparator(c) then 0 else multiset(s)[c]
  {
    if s == [] then []
    else
      assert s == [s[0]] + s[1..];
      (if PhoneSeparator(s[0]) then [] else [s[0]]) + StripSeparators(s[1..])
  }

  const PhoneCustomMessage := "Phone number must be at least 10 digits"

  function PhoneCustom(s: string): Option<string> {
    if |StripSeparators(s)| < 10 then Some(PhoneCustomMessage) else None
  }

  const PhoneRule := Rule(true, None, None, Some(PhoneShape), Some(PhoneCustom))

  /** An input made only of digits and separators strips to digits only. */
  lemma {:induction false} StripCountsDigits(s: string)
    requires forall i :: 0 <= i < |s| ==> IsDigit(s[i]) || PhoneSeparator(s[i])
    ensures forall i :: 0 <= i < |StripSeparators(s)| ==> IsDigit(StripSeparators(s)[i])
  {
    if s != [] {
      StripCountsDigits(s[1..]);
    }
  }

  /** A phone number is accepted exactly when it has the shape and at least
      ten characters other than separators. */
  lemma PhoneAcceptedIff(s: string)
    ensures ValidateField(Some(s), PhoneRule).isValid <==>
      Trim(s) != "" && PhoneShape(s) && |StripSeparators(s)| >= 10
  {
    var r := PhoneRule;
    assert !TooShort(s, r) && !TooLong(s, r);
    assert Malformed(s, r) <==> !PhoneShape(s);
    assert CustomRejects(s, r) <==> |StripSeparators(s)| < 10;
  }
}
