/** The sign-up validators (backend/src/validators/user.ts). Each one throws
    BAD_USER_INPUT with its first Joi error; the phone check then asks the
    phone-number library for the number's country and its normalised form. */
module UserValidators {
  import opened Wrappers
  import opened Js
  import opened Joi

  /** The sign-up form as the validator receives it. */
  datatype SignUpInput = SignUpInput(
    name: JsValue,
    email: JsValue,
    phone: JsValue,
    password: JsValue,
    confirmPassword: JsValue)

  /** The phone-number library, which is not modelled: the country a number
      belongs to (falsy when none is recognised), and the normalised number
      when it is valid for a given country. */
  datatype PhoneLibrary = PhoneLibrary(
    countryOf: string -> Option<string>,
    normalise: (string, string) -> Option<string>)

  const NameMessages := Messages(
    "name is required", "name must be a string", "name cannot be empty",
    "name must be at least 6 characters", "name must be at most 50 characters", "")

  const EmailMessages := Messages(
    "email is required", "email must be a string", "email cannot be empty", "", "", "email must be a valid email")

  const PasswordMessages := Messages(
    "password is required", "password must be a string", "password cannot be empty",
    "password must be at least 6 characters", "password must be at most 50 characters", "")

  const ConfirmMessages := Messages(
    "confirm password is required", "confirm password must be a string", "confirm password cannot be empty",
    "", "", "passwords don't match")

  const PhoneMessages := Messages(
    "phone number is required", "phone number must be a string", "phone number cannot be empty",
    "", "", "phone number structure is not valid")

  const PhoneStructureError := Error(BadUserInput, "Phone number structure is not valid")

  function Check(r: Result<string>): Outcome {
    match r
    case Ok(_) => Pass()
    case Err(e) => Err(e)
  }

  /** A name is a string of 6 to 50 characters. */
  function ValidateName(v: JsValue): (r: Outcome)
    ensures r.Ok? <==> v.Str? && 6 <= |v.s| <= 50
    ensures r.Err? ==> r.error.code == BadUserInput
  {
    Check(CheckString(v, Some(6), Some(50), NoRule, NameMessages))
  }

  /** An email is a non-empty string that Joi's address check, which is not
      modelled, accepts. */
  function ValidateEmail(v: JsValue, isEmail: string -> bool): (r: Outcome)
    ensures r.Ok? <==> v.Str? && v.s != "" && isEmail(v.s)
    ensures r.Err? ==> r.error.code == BadUserInput
  {
    Check(CheckString(v, None, None, isEmail, EmailMessages))
  }

  /** A password is a string of 6 to 50 characters. */
  function ValidatePassword(v: JsValue): (r: Outcome)
    ensures r.Ok? <==> v.Str? && 6 <= |v.s| <= 50
    ensures r.Err? ==> r.error.code == BadUserInput
  {
    Check(CheckString(v, Some(6), Some(50), NoRule, PasswordMessages))
  }

  /** `validateConfirmPassword`: the object schema reports the password's own
      error first. The confirmation is compared with the password before its
      type, so a mismatch is reported as such whatever the confirmation is. */
  function ValidateConfirmPassword(password: JsValue, confirm: JsValue): (r: Outcome)
    ensures r.Ok? <==> password.Str? && password.s != "" && confirm == password
    ensures r.Err? ==> r.error.code == BadUserInput
    ensures password.Str? && password.s != "" && !confirm.Undefined? && confirm != password ==>
      r == Fail(BadUserInput, "passwords don't match")
  {
    var _ :- Check(CheckString(password, None, None, NoRule, PasswordMessages));
    if confirm.Undefined? then Reject(ConfirmMessages.required)
    else if confirm != password then Reject(ConfirmMessages.rule)
    else Pass()
  }

  /** The character class `[0-9\-\s]`. */
  predicate PhoneChar(c: char) {
    IsDigit(c) || c == '-' || IsWhitespace(c)
  }

  /** `/^\+[0-9\-\s]+$/`: a plus sign followed by at least one digit, dash or
      white-space character, and nothing else. */
  predicate PhonePattern(s: string) {
    |s| >= 2 && s[0] == '+' && forall i :: 1 <= i < |s| ==> PhoneChar(s[i])
  }

  /** `checkPhoneNumber`: the pattern again, then the library's country
      detection, then its validity check for that country; yields the
      normalised number. Every failure has the same message. */
  function CheckPhoneNumber(s: string, lib: PhoneLibrary): (r: Result<string>)
    ensures r.Ok? <==>
      PhonePattern(s) && TruthyString(lib.countryOf(s)) && lib.normalise(s, lib.countryOf(s).value).Some?
    ensures r.Ok? ==> r.value == lib.normalise(s, lib.countryOf(s).value).value
    ensures r.Err? ==> r.error == PhoneStructureError
  {
    if !PhonePattern(s) then Err(PhoneStructureError)
    else
      var country := lib.countryOf(s);
      if !TruthyString(country) then Err(PhoneStructureError)
      else
        match lib.normalise(s, country.value)
        case None => Err(PhoneStructureError)
        case Some(n) => Ok(n)
  }

  /** `validatePhoneNumber`: the Joi pattern check, then `checkPhoneNumber`. */
  function ValidatePhoneNumber(v: JsValue, lib: PhoneLibrary): (r: Result<string>)
    ensures r.Ok? <==> v.Str? && CheckPhoneNumber(v.s, lib).Ok?
    ensures r.Ok? ==> r == CheckPhoneNumber(v.s, lib)
    ensures r.Err? ==> r.error.code == BadUserInput
    ensures v.Str? && v.s != "" && !PhonePattern(v.s) ==> r == Reject("phone number structure is not valid")
  {
    var s :- CheckString(v, None, None, PhonePattern, PhoneMessages);
    CheckPhoneNumber(s, lib)
  }

  /** The pattern test inside `checkPhoneNumber` repeats the Joi pattern rule,
      so after the Joi check it can only fail in the library calls. */
  lemma PatternRecheckIsRedundant(v: JsValue, lib: PhoneLibrary)
    requires CheckString(v, None, None, PhonePattern, PhoneMessages).Ok?
    ensures CheckPhoneNumber(v.s, lib).Err? ==>
      !TruthyString(lib.countryOf(v.s)) || lib.normalise(v.s, lib.countryOf(v.s).value).None?
  {
  }

  /** What `validateSignUp` leaves behind: the input object, whose phone it
      overwrites, and whether it threw. */
  datatype SignUpCheck = SignUpCheck(input: SignUpInput, result: Outcome)

  /** `validateSignUp`: name, email, phone, password, then the confirmation.
      The phone is replaced by its normalised form as soon as it passes, so
      the replacement survives a later failure. */
  function ValidateSignUp(u: SignUpInput, isEmail: string -> bool, lib: PhoneLibrary): (c: SignUpCheck)
    ensures c.result.Err? ==> c.result.error.code == BadUserInput
    ensures c.input == u
      || (ValidatePhoneNumber(u.phone, lib).Ok? && c.input == u.(phone := Str(ValidatePhoneNumber(u.phone, lib).value)))
  {
    match ValidateName(u.name)
    case Err(e) => SignUpCheck(u, Err(e))
    case Ok(_) =>
      match ValidateEmail(u.email, isEmail)
      case Err(e) => SignUpCheck(u, Err(e))
      case Ok(_) =>
        match ValidatePhoneNumber(u.phone, lib)
        case Err(e) => SignUpCheck(u, Err(e))
        case Ok(normalised) =>
          var u' := u.(phone := Str(normalised));
          var password := ValidatePassword(u'.password);
          SignUpCheck(u', if password.Err? then password else ValidateConfirmPassword(u'.password, u'.confirmPassword))
  }

  /** The acceptance condition of a sign-up form, field by field. */
  predicate AcceptableSignUp(u: SignUpInput, isEmail: string -> bool, lib: PhoneLibrary) {
    && u.name.Str? && 6 <= |u.name.s| <= 50
    && u.email.Str? && u.email.s != "" && isEmail(u.email.s)
    && u.phone.Str? && CheckPhoneNumber(u.phone.s, lib).Ok?
    && u.password.Str? && 6 <= |u.password.s| <= 50
    && u.confirmPassword == u.password
  }

  /** Sign-up validation passes exactly for acceptable forms, and then the
      phone holds the normalised number. */
  lemma ValidateSignUpAcceptsExactly(u: SignUpInput, isEmail: string -> bool, lib: PhoneLibrary)
    ensures ValidateSignUp(u, isEmail, lib).result.Ok? <==> AcceptableSignUp(u, isEmail, lib)
    ensures ValidateSignUp(u, isEmail, lib).result.Ok? ==>
      ValidateSignUp(u, isEmail, lib).input == u.(phone := Str(CheckPhoneNumber(u.phone.s, lib).value))
  {
    var c := ValidateSignUp(u, isEmail, lib);
    if AcceptableSignUp(u, isEmail, lib) {
      assert ValidatePhoneNumber(u.phone, lib).Ok?;
    }
  }

  /** The checks in the order `validateSignUp` runs them; the last two see the
      object whose phone has already been replaced. */
  lemma FirstFailingCheckIsReported(u: SignUpInput, isEmail: string -> bool, lib: PhoneLibrary)
    ensures ValidateName(u.name).Err? ==> ValidateSignUp(u, isEmail, lib) == SignUpCheck(u, ValidateName(u.name))
    ensures ValidateName(u.name).Ok? && ValidateEmail(u.email, isEmail).Err? ==>
      ValidateSignUp(u, isEmail, lib) == SignUpCheck(u, ValidateEmail(u.email, isEmail))
    ensures ValidateName(u.name).Ok? && ValidateEmail(u.email, isEmail).Ok? && ValidatePhoneNumber(u.phone, lib).Err? ==>
      ValidateSignUp(u, isEmail, lib).input == u
      && ValidateSignUp(u, isEmail, lib).result.error == ValidatePhoneNumber(u.phone, lib).error
  {
  }

  /** A form with a good phone number and a bad password is rejected, yet its
      phone has already been overwritten with the normalised number. */
  lemma PhoneOverwrittenBeforePasswordCheck(u: SignUpInput, isEmail: string -> bool, lib: PhoneLibrary)
    requires ValidateName(u.name).Ok? && ValidateEmail(u.email, isEmail).Ok?
    requires ValidatePhoneNumber(u.phone, lib).Ok? && ValidatePassword(u.password).Err?
    ensures ValidateSignUp(u, isEmail, lib).result == ValidatePassword(u.password)
    ensures ValidateSignUp(u, isEmail, lib).input.phone == Str(ValidatePhoneNumber(u.phone, lib).value)
  {
  }
}
