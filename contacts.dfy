/** The contact records exchanged between the client and the server. */
module Contacts {
  import opened Wrappers

  /** The five editable fields of a contact, in the order the server whitelists them. */
  datatype ContactField = FirstName | LastName | PhoneNumber | EmailAddress | Address {

    /** The JSON key, form field name and database column of the field. */
    function Key(): string {
      match this
      case FirstName => "first_name"
      case LastName => "last_name"
      case PhoneNumber => "phone_number"
      case EmailAddress => "email_address"
      case Address => "address"
    }
  }

  /**
   * A contact as a request body or an edit form carries it. A key the body
   * leaves out reads as the empty string, as `data.get(key, '')` does.
   */
  datatype ContactInput = ContactInput(
    firstName: string,
    lastName: string,
    phoneNumber: string,
    emailAddress: string,
    address: string)

  /** A contact as the client receives it from the server; any display field may be null. */
  datatype Contact = Contact(
    contactId: int,
    firstName: Option<string>,
    lastName: Option<string>,
    phoneNumber: Option<string>,
    emailAddress: Option<string>,
    address: Option<string>)

  /** Field-level validation errors: field to message. */
  type FieldErrors = map<ContactField, string>

  /**
   * The errors of the five field checks as one map: a field is a key exactly
   * when its check produced a message, and maps to that message.
   */
  function ErrorMap(
    firstName: Option<string>, lastName: Option<string>, phone: Option<string>,
    email: Option<string>, address: Option<string>): (errors: FieldErrors)
    ensures FirstName in errors <==> firstName.Some?
    ensures FirstName in errors ==> errors[FirstName] == firstName.value
    ensures LastName in errors <==> lastName.Some?
    ensures LastName in errors ==> errors[LastName] == lastName.value
    ensures PhoneNumber in errors <==> phone.Some?
    ensures PhoneNumber in errors ==> errors[PhoneNumber] == phone.value
    ensures EmailAddress in errors <==> email.Some?
    ensures EmailAddress in errors ==> errors[EmailAddress] == email.value
    ensures Address in errors <==> address.Some?
    ensures Address in errors ==> errors[Address] == address.value
    ensures errors == map[] <==>
      firstName.None? && lastName.None? && phone.None? && email.None? && address.None?
  {
    var withFirst := if firstName.Some? then map[FirstName := firstName.value] else map[];
    var withLast := if lastName.Some? then withFirst[LastName := lastName.value] else withFirst;
    var withPhone := if phone.Some? then withLast[PhoneNumber := phone.value] else withLast;
    var withEmail := if email.Some? then withPhone[EmailAddress := email.value] else withPhone;
    var all := if address.Some? then withEmail[Address := address.value] else withEmail;
    all
  }

  /**
   * The `errors = {}` dictionary a `validate_contact` fills: each field's
   * check runs in field order and records its message when it has one.
   */
  method RecordErrors(
    firstName: Option<string>, lastName: Option<string>, phone: Option<string>,
    email: Option<string>, address: Option<string>)
    returns (errors: FieldErrors)
    ensures errors == ErrorMap(firstName, lastName, phone, email, address)
  {
    errors := map[];
    if firstName.Some? {
      errors := errors[FirstName := firstName.value];
    }
    if lastName.Some? {
      errors := errors[LastName := lastName.value];
    }
    if phone.Some? {
      errors := errors[PhoneNumber := phone.value];
    }
    if email.Some? {
      errors := errors[EmailAddress := email.value];
    }
    if address.Some? {
      errors := errors[Address := address.value];
    }
  }
}
