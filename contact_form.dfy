/**
 * The client-side check of the add/edit contact form
 * (frontend/src/ContactForm.js): `validate` and the submit gate of
 * `handleSubmit`. The form's fields are always strings; an empty field is
 * `''`.
 */
module ContactForm {
  import opened Wrappers
  import opened Text
  import opened Contacts

  const FirstNameRequiredMessage := "First name is required"
  const LastNameRequiredMessage := "Last name is required"
  const PhoneRequiredMessage := "Phone number is required"
  const PhoneFormatMessage := "Phone number must be 7-15 digits"
  const EmailInvalidMessage := "Invalid email address"

  /** A character of `[0-9\-\s]`. */
  predicate IsPhoneChar(c: char) {
    IsDigit(c) || c == '-' || IsJsSpace(c)
  }

  /** `/^[0-9\-\s]{7,15}$/`, applied to the untrimmed value. */
  predicate PhonePattern(phone: string) {
    7 <= |phone| <= 15 && All(phone, IsPhoneChar)
  }

  /** A character of `[^@\s]`. */
  predicate IsAddressChar(c: char) {
    c != '@' && !IsJsSpace(c)
  }

  /**
   * `/^[^@\s]+@[^@\s]+\.[^@\s]+$/`: a non-empty part, `@`, a non-empty part,
   * a `.` and a non-empty part, none of the parts holding `@` or whitespace.
   */
  predicate EmailPattern(email: string) {
    exists at, dot | 0 < at < dot < |email| ::
      email[at] == '@' && email[dot] == '.' && at + 1 < dot && dot + 1 < |email|
      && All(email[..at], IsAddressChar)
      && All(email[at + 1..dot], IsAddressChar)
      && All(email[dot + 1..], IsAddressChar)
  }

  /** A name field: required after trimming. */
  function NameError(value: string, message: string): (r: Option<string>)
    ensures r.None? <==> !All(value, IsJsSpace)
    ensures r.Some? ==> r.value == message
  {
    StripEmptyIffBlank(value, IsJsSpace);
    if Strip(value, IsJsSpace) == [] then Some(message) else None
  }

  /** The phone field: required after trimming, then the pattern on the value as typed. */
  function PhoneError(value: string): (r: Option<string>)
    ensures r.None? <==> !All(value, IsJsSpace) && PhonePattern(value)
    ensures r.Some? ==> r.value == (if All(value, IsJsSpace) then PhoneRequiredMessage else PhoneFormatMessage)
  {
    StripEmptyIffBlank(value, IsJsSpace);
    if Strip(value, IsJsSpace) == [] then Some(PhoneRequiredMessage)
    else if !PhonePattern(value) then Some(PhoneFormatMessage)
    else None
  }

  /** The email field: optional, and checked as typed when present. */
  function EmailError(value: string): (r: Option<string>)
    ensures r.None? <==> value == [] || EmailPattern(value)
    ensures r.Some? ==> r.value == EmailInvalidMessage
  {
    if value != [] && !EmailPattern(value) then Some(EmailInvalidMessage) else None
  }

  /** Everything `validate` demands of the form. */
  predicate FormAccepted(form: ContactInput) {
    !All(form.firstName, IsJsSpace) && !All(form.lastName, IsJsSpace)
    && !All(form.phoneNumber, IsJsSpace) && PhonePattern(form.phoneNumber)
    && (form.emailAddress == [] || EmailPattern(form.emailAddress))
  }

  /** `validate(form)`: the address is never checked. */
  function Validate(form: ContactInput): (errors: FieldErrors)
    ensures FirstName in errors <==> All(form.firstName, IsJsSpace)
    ensures LastName in errors <==> All(form.lastName, IsJsSpace)
    ensures PhoneNumber in errors <==> All(form.phoneNumber, IsJsSpace) || !PhonePattern(form.phoneNumber)
    ensures EmailAddress in errors <==> form.emailAddress != [] && !EmailPattern(form.emailAddress)
    ensures errors.Keys <= {FirstName, LastName, PhoneNumber, EmailAddress}
    ensures FirstName in errors ==> errors[FirstName] == FirstNameRequiredMessage
    ensures LastName in errors ==> errors[LastName] == LastNameRequiredMessage
    ensures PhoneNumber in errors ==>
      errors[PhoneNumber] == (if All(form.phoneNumber, IsJsSpace) then PhoneRequiredMessage else PhoneFormatMessage)
    ensures EmailAddress in errors ==> errors[EmailAddress] == EmailInvalidMessage
    ensures errors == map[] <==> FormAccepted(form)
  {
    ErrorMap(NameError(form.firstName, FirstNameRequiredMessage),
             NameError(form.lastName, LastNameRequiredMessage),
             PhoneError(form.phoneNumber),
             EmailError(form.emailAddress),
             None)
  }

  /** What `handleSubmit` does: the errors it shows, and whether it calls `onSubmit`. */
  datatype SubmitOutcome = SubmitOutcome(shown: FieldErrors, submitted: bool)

  function HandleSubmit(form: ContactInput): (r: SubmitOutcome)
    ensures r.shown == Validate(form)
    ensures r.submitted <==> FormAccepted(form)
  {
    var errors := Validate(form);
    SubmitOutcome(errors, |errors.Keys| == 0)
  }

  /** An accepted address has exactly one `@`, after a non-empty part, and no whitespace. */
  lemma {:induction false} EmailPatternOneAt(email: string)
    requires EmailPattern(email)
    ensures exists at | 0 < at < |email| :: email[at] == '@'
    ensures forall k, m :: 0 <= k < m < |email| && email[k] == '@' ==> email[m] != '@'
    ensures forall k :: 0 <= k < |email| ==> !IsJsSpace(email[k])
  {
    var at, dot :| 0 < at < dot < |email|
      && email[at] == '@' && email[dot] == '.' && at + 1 < dot && dot + 1 < |email|
      && All(email[..at], IsAddressChar)
      && All(email[at + 1..dot], IsAddressChar)
      && All(email[dot + 1..], IsAddressChar);
    forall k | 0 <= k < |email| && k != at
      ensures IsAddressChar(email[k])
    {
      if k < at {
        assert email[..at][k] == email[k];
      } else if k < dot {
        assert email[at + 1..dot][k - at - 1] == email[k];
      } else if k > dot {
        assert email[dot + 1..][k - dot - 1] == email[k];
      }
    }
  }

  /** The shortest accepted shape. */
  lemma EmailPatternAccepts()
    ensures EmailPattern("a@b.c")
  {
    var e := "a@b.c";
    assert e[..1] == "a" && e[1 + 1..3] == "b" && e[3 + 1..] == "c";
    assert e[1] == '@' && e[3] == '.';
  }

  /** Near misses: no dot after the `@`, nothing between `@` and dot, whitespace. */
  lemma EmailPatternRejects()
    ensures !EmailPattern("a@b")
    ensures !EmailPattern("a@.c")
    ensures !EmailPattern("a b@c.d")
  {
    var f := "a b@c.d";
    assert IsJsSpace(f[1]);
  }

  /** The phone check counts characters, not digits: seven dashes pass it. */
  lemma PhonePatternWithoutDigits()
    ensures PhonePattern("-------") && Digits("-------") == []
    ensures PhoneError("-------").None?
  {
    var dashes := "-------";
    assert !IsJsSpace(dashes[0]);
  }
}
