/**
 * The validation of the older server variant (backend/app_hybrid.py):
 * a `validate_contact` that only checks presence, a digits-only phone and
 * an `@`-and-`.` email, and the strip-then-required credential check that
 * both `register` and `login` make.
 */
module HybridValidation {
  import opened Wrappers
  import opened Text
  import opened Contacts

  const FirstNameRequiredMessage := "First name is required"
  const LastNameRequiredMessage := "Last name is required"
  const PhoneRequiredMessage := "Phone number is required"
  const PhoneDigitsMessage := "Phone number must be 10 digits"
  const EmailInvalidMessage := "Invalid email address"
  const CredentialsRequiredMessage := "Username and password are required"

  /** Python's `str.isdigit()` on ASCII: non-empty and digits only. */
  predicate IsDigitString(s: string) {
    s != [] && AllDigits(s)
  }

  /** The phone rule: the stripped value is exactly ten digits, separators are not removed. */
  predicate PhoneAccepted(raw: string) {
    var phone := Strip(raw, IsPySpace);
    |phone| == 10 && AllDigits(phone)
  }

  /** The email rule: an empty value passes, otherwise both `@` and `.` must occur. */
  predicate EmailAccepted(raw: string) {
    var email := Strip(raw, IsPySpace);
    email == [] || ('@' in email && '.' in email)
  }

  /** A name step: the message when the value is blank after stripping. */
  function RequiredError(raw: string, message: string): (r: Option<string>)
    ensures r.None? <==> !All(raw, IsPySpace)
    ensures r.Some? ==> r.value == message
  {
    StripEmptyIffBlank(raw, IsPySpace);
    if Strip(raw, IsPySpace) == [] then Some(message) else None
  }

  /** The phone step: "required" for a blank value, "10 digits" for anything else that is not ten digits. */
  function PhoneError(raw: string): (r: Option<string>)
    ensures r.None? <==> PhoneAccepted(raw)
    ensures r.Some? ==> r.value == (if Strip(raw, IsPySpace) == [] then PhoneRequiredMessage else PhoneDigitsMessage)
  {
    var phone := Strip(raw, IsPySpace);
    if phone == [] then Some(PhoneRequiredMessage)
    else if !IsDigitString(phone) || |phone| != 10 then Some(PhoneDigitsMessage)
    else None
  }

  /** The email step. */
  function EmailError(raw: string): (r: Option<string>)
    ensures r.None? <==> EmailAccepted(raw)
    ensures r.Some? ==> r.value == EmailInvalidMessage
  {
    var email := Strip(raw, IsPySpace);
    if email != [] && ('@' !in email || '.' !in email) then Some(EmailInvalidMessage) else None
  }

  /** Everything the hybrid `validate_contact` demands of a contact. */
  predicate ContactAccepted(data: ContactInput) {
    !All(data.firstName, IsPySpace) && !All(data.lastName, IsPySpace)
    && PhoneAccepted(data.phoneNumber) && EmailAccepted(data.emailAddress)
  }

  /**
   * `validate_contact` of the hybrid server: the address is never checked,
   * and an empty result is what lets `add_contact` and `update_contact` go on.
   */
  method ValidateContact(data: ContactInput) returns (errors: FieldErrors)
    ensures FirstName in errors <==> All(data.firstName, IsPySpace)
    ensures FirstName in errors ==> errors[FirstName] == FirstNameRequiredMessage
    ensures LastName in errors <==> All(data.lastName, IsPySpace)
    ensures LastName in errors ==> errors[LastName] == LastNameRequiredMessage
    ensures PhoneNumber in errors <==> !PhoneAccepted(data.phoneNumber)
    ensures PhoneNumber in errors ==>
      errors[PhoneNumber] == (if Strip(data.phoneNumber, IsPySpace) == [] then PhoneRequiredMessage else PhoneDigitsMessage)
    ensures EmailAddress in errors <==> !EmailAccepted(data.emailAddress)
    ensures EmailAddress in errors ==> errors[EmailAddress] == EmailInvalidMessage
    ensures Address !in errors
    ensures errors == map[] <==> ContactAccepted(data)
  {
    var firstName := RequiredError(data.firstName, FirstNameRequiredMessage);
    var lastName := RequiredError(data.lastName, LastNameRequiredMessage);
    var phone := PhoneError(data.phoneNumber);
    var email := EmailError(data.emailAddress);
    errors := RecordErrors(firstName, lastName, phone, email, None);
  }

  /**
   * The guard `register` and `login` share: both credentials are stripped
   * and neither may then be empty.
   */
  function CredentialsCheck(username: string, password: string): (r: Option<string>)
    ensures r.None? <==> !All(username, IsPySpace) && !All(password, IsPySpace)
    ensures r.Some? ==> r.value == CredentialsRequiredMessage
  {
    StripEmptyIffBlank(username, IsPySpace);
    StripEmptyIffBlank(password, IsPySpace);
    if Strip(username, IsPySpace) == [] || Strip(password, IsPySpace) == [] then Some(CredentialsRequiredMessage) else None
  }
}
