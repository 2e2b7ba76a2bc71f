/** The passenger details form of
    frontend/src/components/booking/PassengerForm.jsx: seven text fields,
    an error map keyed by field, `validateForm`, `handleChange` and the
    guarded submit. */
module PassengerForm {
  import opened Wrappers
  import opened Text
  import Validation

  datatype Field = FirstName | LastName | Email | Phone | PassportNumber | DateOfBirth | Nationality

  datatype Passenger = Passenger(
    firstName: string, lastName: string, email: string, phone: string,
    passportNumber: string, dateOfBirth: string, nationality: string)

  /** `initialData`: each field may be missing. */
  datatype InitialData = InitialData(
    firstName: Option<string>, lastName: Option<string>, email: Option<string>, phone: Option<string>,
    passportNumber: Option<string>, dateOfBirth: Option<string>, nationality: Option<string>)

  function Get(p: Passenger, f: Field): string {
    match f
    case FirstName => p.firstName
    case LastName => p.lastName
    case Email => p.email
    case Phone => p.phone
    case PassportNumber => p.passportNumber
    case DateOfBirth => p.dateOfBirth
    case Nationality => p.nationality
  }

  function Set(p: Passenger, f: Field, v: string): (r: Passenger)
    ensures Get(r, f) == v
    ensures forall g :: g != f ==> Get(r, g) == Get(p, g)
  {
    match f
    case FirstName => p.(firstName := v)
    case LastName => p.(lastName := v)
    case Email => p.(email := v)
    case Phone => p.(phone := v)
    case PassportNumber => p.(passportNumber := v)
    case DateOfBirth => p.(dateOfBirth := v)
    case Nationality => p.(nationality := v)
  }

  /** The value `initialData` gives a field, if any. */
  function Given(d: InitialData, f: Field): Option<string> {
    match f
    case FirstName => d.firstName
    case LastName => d.lastName
    case Email => d.email
    case Phone => d.phone
    case PassportNumber => d.passportNumber
    case DateOfBirth => d.dateOfBirth
    case Nationality => d.nationality
  }

  /** `x || ''` for a field of `initialData`. */
  function OrEmpty(x: Option<string>): string {
    if x.Some? then x.value else ""
  }

  /** The initial form data: every field missing from `initialData` starts
      as the empty string, every given one as given. */
  function InitialPassenger(d: InitialData): (p: Passenger)
    ensures forall f :: Given(d, f).None? ==> Get(p, f) == ""
    ensures forall f :: Given(d, f).Some? ==> Get(p, f) == Given(d, f).value
  {
    Passenger(OrEmpty(d.firstName), OrEmpty(d.lastName), OrEmpty(d.email), OrEmpty(d.phone),
      OrEmpty(d.passportNumber), OrEmpty(d.dateOfBirth), OrEmpty(d.nationality))
  }

  /** The fields that only have to be non-blank. */
  predicate TrimRequired(f: Field) {
    f == FirstName || f == LastName || f == Phone || f == PassportNumber || f == Nationality
  }

  /** The `errors` object: at most one text per field; `None` is a field
      the object has no key for. */
  datatype Errors = Errors(
    firstName: Option<string>, lastName: Option<string>, email: Option<string>, phone: Option<string>,
    passportNumber: Option<string>, dateOfBirth: Option<string>, nationality: Option<string>)

  const NoErrors := Errors(None, None, None, None, None, None, None)

  function ErrorOf(e: Errors, f: Field): Option<string> {
    match f
    case FirstName => e.firstName
    case LastName => e.lastName
    case Email => e.email
    case Phone => e.phone
    case PassportNumber => e.passportNumber
    case DateOfBirth => e.dateOfBirth
    case Nationality => e.nationality
  }

  function WithError(e: Errors, f: Field, m: Option<string>): (r: Errors)
    ensures ErrorOf(r, f) == m
    ensures forall g :: g != f ==> ErrorOf(r, g) == ErrorOf(e, g)
  {
    match f
    case FirstName => e.(firstName := m)
    case LastName => e.(lastName := m)
    case Email => e.(email := m)
    case Phone => e.(phone := m)
    case PassportNumber => e.(passportNumber := m)
    case DateOfBirth => e.(dateOfBirth := m)
    case Nationality => e.(nationality := m)
  }

  // The texts the form shows.
  const FirstNameRequired: string := "First name is required"
  const LastNameRequired: string := "Last name is required"
  const EmailRequired: string := "Email is required"
  const EmailInvalid: string := "Email is invalid"
  const PhoneRequired: string := "Phone number is required"
  const PassportRequired: string := "Passport number is required"
  const DateOfBirthRequired: string := "Date of birth is required"
  const NationalityRequired: string := "Nationality is required"

  /** The error `validateForm` gives one field, if any. A test
      `!s.trim()` is written as `IsBlank(s)`, which Text.TrimEmptyIffBlank
      shows to be the same condition. */
  function FieldError(p: Passenger, f: Field): Option<string> {
    match f
    case FirstName => if IsBlank(p.firstName) then Some(FirstNameRequired) else None
    case LastName => if IsBlank(p.lastName) then Some(LastNameRequired) else None
    case Email =>
      if IsBlank(p.email) then Some(EmailRequired)
      else if !Validation.ValidateEmail(p.email) then Some(EmailInvalid)
      else None
    case Phone => if IsBlank(p.phone) then Some(PhoneRequired) else None
    case PassportNumber => if IsBlank(p.passportNumber) then Some(PassportRequired) else None
    case DateOfBirth => if p.dateOfBirth == "" then Some(DateOfBirthRequired) else None
    case Nationality => if IsBlank(p.nationality) then Some(NationalityRequired) else None
  }

  /** The whole error object of one validation: every field carries its own
      error and nothing else. */
  function FormErrors(p: Passenger): Errors {
    Errors(FieldError(p, FirstName), FieldError(p, LastName), FieldError(p, Email), FieldError(p, Phone),
      FieldError(p, PassportNumber), FieldError(p, DateOfBirth), FieldError(p, Nationality))
  }

  lemma FormErrorsAt(p: Passenger, f: Field)
    ensures ErrorOf(FormErrors(p), f) == FieldError(p, f)
  {
  }

  /** The five plain fields are rejected exactly when their trimmed text is
      empty. */
  lemma PlainFieldError(p: Passenger, f: Field)
    requires TrimRequired(f)
    ensures ErrorOf(FormErrors(p), f).Some? <==> Trim(Get(p, f)) == ""
  {
    FormErrorsAt(p, f);
    TrimEmptyIffBlank(Get(p, f));
  }

  /** The e-mail is rejected as missing when blank, otherwise as invalid when
      it does not contain a match of `\S+@\S+\.\S+`; never both. */
  lemma EmailError(p: Passenger)
    ensures FormErrors(p).email.Some? <==> Trim(p.email) == "" || !Validation.EmailPattern(p.email)
    ensures Trim(p.email) == "" ==> FormErrors(p).email == Some(EmailRequired)
    ensures Trim(p.email) != "" && !Validation.EmailPattern(p.email) ==>
      FormErrors(p).email == Some(EmailInvalid)
  {
    TrimEmptyIffBlank(p.email);
    Validation.ValidateEmailIsPattern(p.email);
  }

  /** The date of birth is not trimmed: only the empty string is rejected. */
  lemma DateOfBirthError(p: Passenger)
    ensures FormErrors(p).dateOfBirth.Some? <==> p.dateOfBirth == ""
  {
  }

  /** `validateForm()`: fills `newErrors` field by field in the source's
      order and reports whether it stayed empty. */
  method ValidateForm(p: Passenger) returns (newErrors: Errors, ok: bool)
    ensures newErrors == FormErrors(p)
    ensures ok <==> newErrors == NoErrors
  {
    newErrors := NoErrors;
    if IsBlank(p.firstName) {
      newErrors := newErrors.(firstName := Some(FirstNameRequired));
    }
    if IsBlank(p.lastName) {
      newErrors := newErrors.(lastName := Some(LastNameRequired));
    }
    if IsBlank(p.email) {
      newErrors := newErrors.(email := Some(EmailRequired));
    } else if !Validation.ValidateEmail(p.email) {
      newErrors := newErrors.(email := Some(EmailInvalid));
    }
    if IsBlank(p.phone) {
      newErrors := newErrors.(phone := Some(PhoneRequired));
    }
    if IsBlank(p.passportNumber) {
      newErrors := newErrors.(passportNumber := Some(PassportRequired));
    }
    if p.dateOfBirth == "" {
      newErrors := newErrors.(dateOfBirth := Some(DateOfBirthRequired));
    }
    if IsBlank(p.nationality) {
      newErrors := newErrors.(nationality := Some(NationalityRequired));
    }
    ok := newErrors == NoErrors;
  }

  /** A blank-but-not-empty date of birth passes (it is not trimmed), while
      the same text in a trimmed field is an error. */
  lemma DateOfBirthNotTrimmed(p: Passenger)
    requires p.dateOfBirth == " " && p.firstName == " "
    ensures FormErrors(p).dateOfBirth.None?
    ensures FormErrors(p).firstName == Some(FirstNameRequired)
  {
    assert IsBlank(" ");
  }

  /** `if (errors[name]) setErrors({...errors, [name]: ''})`: a present,
      non-empty error text is blanked and the key stays. */
  function ClearError(e: Errors, name: Field): (r: Errors)
    ensures ErrorOf(e, name).Some? ==> ErrorOf(r, name) == Some("")
    ensures ErrorOf(e, name).None? ==> ErrorOf(r, name).None?
    ensures forall g :: g != name ==> ErrorOf(r, g) == ErrorOf(e, g)
  {
    var m := ErrorOf(e, name);
    if m.Some? && m.value != "" then WithError(e, name, Some("")) else e
  }

  /** `handleChange(e)`: the named field takes the new text and only that
      field's error is blanked. */
  function HandleChange(p: Passenger, errors: Errors, name: Field, value: string)
    : (r: (Passenger, Errors))
    ensures Get(r.0, name) == value && forall g :: g != name ==> Get(r.0, g) == Get(p, g)
    ensures forall g :: g != name ==> ErrorOf(r.1, g) == ErrorOf(errors, g)
    ensures ErrorOf(errors, name).Some? ==> ErrorOf(r.1, name) == Some("")
  {
    (Set(p, name, value), ClearError(errors, name))
  }

  /** `handleSubmit`: validates and hands the current data to `onSubmit`
      exactly when no field has an error; submitted data has every field
      filled in and an e-mail that matches the pattern. */
  method HandleSubmit(p: Passenger) returns (errors: Errors, submitted: Option<Passenger>)
    ensures errors == FormErrors(p)
    ensures submitted.Some? <==> errors == NoErrors
    ensures submitted.Some? ==> submitted.value == p
    ensures submitted.Some? ==> forall f :: Get(p, f) != "" && (f != DateOfBirth ==> Trim(Get(p, f)) != "")
    ensures submitted.Some? ==> Validation.EmailPattern(p.email)
  {
    var ok;
    errors, ok := ValidateForm(p);
    submitted := if ok then Some(p) else None;
    if ok {
      forall f ensures Get(p, f) != "" && (f != DateOfBirth ==> Trim(Get(p, f)) != "") {
        FormErrorsAt(p, f);
        TrimEmptyIffBlank(Get(p, f));
        assert FieldError(p, f).None?;
      }
      Validation.ValidateEmailIsPattern(p.email);
      assert FieldError(p, Email).None?;
    }
  }
}
