/**
 * Input sanitising and validation of the current server (backend/app.py):
 * `sanitize_input`, the username, password, email and phone validators,
 * `validate_contact` and the credential checks of `register` and `login`.
 *
 * Python's `re.match(r'^[C]+$', s)` is written out as a character-class
 * predicate; `$` there also matches just before a final newline, and
 * `MatchesLine` keeps that.
 */
module AppValidation {
  import opened Wrappers
  import opened Text
  import opened Contacts

  /** A validator's `(True, "")` or `(False, message)`. */
  datatype Check = Pass | Fail(message: string)

  // ---------------------------------------------------------------------------
  // html.escape(s, quote=True)

  predicate IsMarkup(c: char) {
    c == '&' || c == '<' || c == '>' || c == '"' || c == '\''
  }

  function EscapeChar(c: char): string {
    if c == '&' then "&amp;"
    else if c == '<' then "&lt;"
    else if c == '>' then "&gt;"
    else if c == '"' then "&quot;"
    else if c == '\'' then "&#x27;"
    else [c]
  }

  /** Escapes the five markup characters; the output holds none of `< > " '` raw. */
  function Escape(s: string): (r: string)
    ensures forall i :: 0 <= i < |r| ==> r[i] != '<' && r[i] != '>' && r[i] != '"' && r[i] != '\''
    ensures |r| >= |s|
    ensures r == [] <==> s == []
  {
    if s == [] then [] else EscapeChar(s[0]) + Escape(s[1..])
  }

  predicate StartsWith(t: string, p: string) { |p| <= |t| && t[..|p|] == p }
  /** Decodes the five entities `Escape` produces; the partner of `Escape`. */
  function Unescape(t: string): string
    decreases |t|
  {
    if t == [] then []
    else if StartsWith(t, "&amp;") then "&" + Unescape(t[5..])
    else if StartsWith(t, "&lt;") then "<" + Unescape(t[4..])
    else if StartsWith(t, "&gt;") then ">" + Unescape(t[4..])
    else if StartsWith(t, "&quot;") then "\"" + Unescape(t[6..])
    else if StartsWith(t, "&#x27;") then "'" + Unescape(t[6..])
    else [t[0]] + Unescape(t[1..])
  }
  lemma UnescapeAfterEntity(c: char, rest: string)
    ensures Unescape(EscapeChar(c) + rest) == [c] + Unescape(rest)
  {
    var e := EscapeChar(c);
    var t := e + rest;
    assert t[..|e|] == e && t[|e|..] == rest;
    if c == '&' {
    } else if c == '<' {
      assert t[1] == 'l';
      assert !StartsWith(t, "&amp;");
    } else if c == '>' {
      assert t[1] == 'g';
      assert !StartsWith(t, "&amp;");
      assert !StartsWith(t, "&lt;");
    } else if c == '"' {
      assert t[1] == 'q';
      assert !StartsWith(t, "&amp;");
      assert !StartsWith(t, "&lt;");
      assert !StartsWith(t, "&gt;");
    } else if c == '\'' {
      assert t[1] == '#';
      assert !StartsWith(t, "&amp;");
      assert !StartsWith(t, "&lt;");
      assert !StartsWith(t, "&gt;");
      assert !StartsWith(t, "&quot;");
    } else {
      assert t[0] == c;
      assert !StartsWith(t, "&amp;");
      assert !StartsWith(t, "&lt;");
      assert !StartsWith(t, "&gt;");
      assert !StartsWith(t, "&quot;");
      assert !StartsWith(t, "&#x27;");
    }
  }

  /** Escaping loses nothing: unescaping gives the text back. */
  lemma {:induction false} UnescapeEscape(s: string)
    ensures Unescape(Escape(s)) == s
  {
    if s != [] {
      UnescapeAfterEntity(s[0], Escape(s[1..]));
      UnescapeEscape(s[1..]);
    }
  }

  lemma {:induction false} EscapeConcat(a: string, b: string)
    ensures Escape(a + b) == Escape(a) + Escape(b)
  {
    if a != [] {
      assert (a + b)[0] == a[0] && (a + b)[1..] == a[1..] + b;
      EscapeConcat(a[1..], b);
    } else {
      assert a + b == b;
    }
  }

  /** Text without markup characters is left as it is. */
  lemma {:induction false} EscapePlain(s: string)
    requires forall i :: 0 <= i < |s| ==> !IsMarkup(s[i])
    ensures Escape(s) == s
  {
    if s != [] {
      EscapePlain(s[1..]);
    }
  }

  /**
   * When every character of the escaped text lies in a class without `&`,
   * there was nothing to escape.
   */
  lemma {:induction false} EscapeWithinClass(s: string, p: char -> bool)
    requires !p('&')
    requires All(Escape(s), p)
    ensures Escape(s) == s && All(s, p)
    ensures forall i :: 0 <= i < |s| ==> !IsMarkup(s[i])
  {
    if s != [] {
      var e := EscapeChar(s[0]);
      assert Escape(s) == e + Escape(s[1..]);
      assert Escape(s)[0] == e[0];
      assert !IsMarkup(s[0]);
      assert All(Escape(s[1..]), p) by {
        forall i | 0 <= i < |Escape(s[1..])|
          ensures p(Escape(s[1..])[i])
        {
          assert Escape(s)[1 + i] == Escape(s[1..])[i];
        }
      }
      EscapeWithinClass(s[1..], p);
    }
  }

  /** The escaped text ends in `;` or in the last character of the input. */
  lemma EscapeLast(s: string)
    requires s != []
    ensures var r := Escape(s);
            r[|r| - 1] == (if IsMarkup(s[|s| - 1]) then ';' else s[|s| - 1])
  {
    var init, last := s[..|s| - 1], s[|s| - 1];
    assert s == init + [last];
    EscapeConcat(init, [last]);
    assert Escape([last]) == EscapeChar(last);
  }

  // ---------------------------------------------------------------------------
  // sanitize_input

  /** `sanitize_input`: empty input is returned as it is; otherwise strip, then escape. */
  function Sanitize(text: string): (r: string)
    ensures r == [] <==> Strip(text, IsPySpace) == []
    ensures forall i :: 0 <= i < |r| ==> r[i] != '<' && r[i] != '>' && r[i] != '"' && r[i] != '\''
  {
    if text == [] then [] else Escape(Strip(text, IsPySpace))
  }

  /** Sanitising keeps the stripped text recoverable: unescaping gives it back. */
  lemma SanitizeRoundTrip(text: string)
    ensures Unescape(Sanitize(text)) == Strip(text, IsPySpace)
  {
    UnescapeEscape(Strip(text, IsPySpace));
  }

  /** A sanitised text never ends in a newline. */
  lemma SanitizedNoFinalNewline(text: string)
    ensures var r := Sanitize(text); r == [] || r[|r| - 1] != '\n'
  {
    var s := Strip(text, IsPySpace);
    if text != [] && s != [] {
      EscapeLast(s);
    }
  }

  // ---------------------------------------------------------------------------
  // re.match(r'^[C]+$', s)

  /** One or more characters of class `p`, optionally followed by one final newline. */
  predicate MatchesLine(s: string, p: char -> bool) {
    (|s| > 0 && All(s, p)) || (|s| > 1 && s[|s| - 1] == '\n' && All(s[..|s| - 1], p))
  }

  /** Without a final newline the pattern is simply "one or more characters of the class". */
  lemma MatchesLineNoNewline(s: string, p: char -> bool)
    requires s == [] || s[|s| - 1] != '\n'
    ensures MatchesLine(s, p) <==> |s| > 0 && All(s, p)
  {
  }

  // ---------------------------------------------------------------------------
  // validate_username

  predicate IsUsernameChar(c: char) {
    IsLetter(c) || IsDigit(c) || c == '_' || c == '-'
  }

  const UsernameLengthMessage := "Username must be between 3 and 50 characters"
  const UsernameCharsMessage := "Username can only contain letters, numbers, underscores, and hyphens"

  /** `validate_username`: the length rule is checked, and reported, before the character rule. */
  function ValidateUsername(username: string): (r: Check)
    ensures r == Pass <==> 3 <= |username| <= 50 && MatchesLine(username, IsUsernameChar)
    ensures !(3 <= |username| <= 50) ==> r == Fail(UsernameLengthMessage)
    ensures 3 <= |username| <= 50 && r != Pass ==> r == Fail(UsernameCharsMessage)
  {
    if |username| < 3 || |username| > 50 then Fail(UsernameLengthMessage)
    else if !MatchesLine(username, IsUsernameChar) then Fail(UsernameCharsMessage)
    else Pass
  }

  /**
   * What `register` accepts as a username once it has been sanitised: 3 to 50
   * characters after stripping, all letters, digits, `_` or `-`.
   */
  lemma SanitizedUsernameAccepted(raw: string)
    ensures ValidateUsername(Sanitize(raw)) == Pass
        <==> 3 <= |Strip(raw, IsPySpace)| <= 50 && All(Strip(raw, IsPySpace), IsUsernameChar)
  {
    var s, r := Strip(raw, IsPySpace), Sanitize(raw);
    SanitizedNoFinalNewline(raw);
    MatchesLineNoNewline(r, IsUsernameChar);
    if raw != [] {
      assert r == Escape(s);
      if All(s, IsUsernameChar) {
        EscapePlain(s);
      }
      if All(r, IsUsernameChar) {
        EscapeWithinClass(s, IsUsernameChar);
      }
    }
  }

  // ---------------------------------------------------------------------------
  // validate_password

  const PasswordLengthMessage := "Password must be at least 8 characters long"
  const PasswordUpperMessage := "Password must contain at least one uppercase letter"
  const PasswordLowerMessage := "Password must contain at least one lowercase letter"
  const PasswordDigitMessage := "Password must contain at least one number"

  predicate StrongPassword(password: string) {
    |password| >= 8 && Any(password, IsUpper) && Any(password, IsLower) && Any(password, IsDigit)
  }

  /** `validate_password`: the first failing check, in the order length, upper, lower, digit, decides the message. */
  function ValidatePassword(password: string): (r: Check)
    ensures r == Pass <==> StrongPassword(password)
    ensures r != Pass ==>
      r.message in {PasswordLengthMessage, PasswordUpperMessage, PasswordLowerMessage, PasswordDigitMessage}
    ensures |password| < 8 ==> r == Fail(PasswordLengthMessage)
    ensures |password| >= 8 && !Any(password, IsUpper) ==> r == Fail(PasswordUpperMessage)
    ensures |password| >= 8 && Any(password, IsUpper) && !Any(password, IsLower) ==> r == Fail(PasswordLowerMessage)
    ensures r == Fail(PasswordDigitMessage) <==>
      |password| >= 8 && Any(password, IsUpper) && Any(password, IsLower) && !Any(password, IsDigit)
  {
    if |password| < 8 then Fail(PasswordLengthMessage)
    else if !Any(password, IsUpper) then Fail(PasswordUpperMessage)
    else if !Any(password, IsLower) then Fail(PasswordLowerMessage)
    else if !Any(password, IsDigit) then Fail(PasswordDigitMessage)
    else Pass
  }

  // ---------------------------------------------------------------------------
  // validate_email

  predicate IsEmailLocalChar(c: char) {
    IsLetter(c) || IsDigit(c) || c == '.' || c == '_' || c == '%' || c == '+' || c == '-'
  }

  predicate IsEmailDomainChar(c: char) {
    IsLetter(c) || IsDigit(c) || c == '.' || c == '-'
  }

  /** `local@domain.tld`, the shape of `[a-zA-Z0-9._%+-]+@[a-zA-Z0-9.-]+\.[a-zA-Z]{2,}`. */
  predicate EmailShape(s: string) {
    exists i, j | 0 < i < j < |s| ::
      s[i] == '@' && s[j] == '.' && i + 1 < j && j + 2 < |s|
      && All(s[..i], IsEmailLocalChar)
      && All(s[i + 1..j], IsEmailDomainChar)
      && All(s[j + 1..], IsLetter)
  }

  const EmailInvalidMessage := "Invalid email address format"

  /** `validate_email`: the empty address is accepted (email is optional). */
  function ValidateEmail(email: string): (r: Check)
    ensures email == [] ==> r == Pass
    ensures r == Pass <==>
      (email == [] || EmailShape(email)
       || (email[|email| - 1] == '\n' && EmailShape(email[..|email| - 1])))
    ensures r != Pass ==> r == Fail(EmailInvalidMessage)
  {
    if email == [] then Pass
    else if EmailShape(email) || (email[|email| - 1] == '\n' && EmailShape(email[..|email| - 1])) then Pass
    else Fail(EmailInvalidMessage)
  }

  /** An address the pattern accepts holds an `@` and a `.`. */
  lemma EmailShapeHasAtAndDot(s: string)
    requires EmailShape(s)
    ensures '@' in s && '.' in s
  {
    var i, j :| 0 < i < j < |s| && s[i] == '@' && s[j] == '.';
  }

  // ---------------------------------------------------------------------------
  // validate_phone

  const PhoneRequiredMessage := "Phone number is required"
  const PhoneDigitsMessage := "Phone number must be exactly 10 digits"

  /** `validate_phone`: separators are ignored, exactly ten digits must remain. */
  function ValidatePhone(phone: string): (r: Check)
    ensures r == Pass <==> phone != [] && |Digits(phone)| == 10
    ensures phone == [] ==> r == Fail(PhoneRequiredMessage)
    ensures phone != [] && r != Pass ==> r == Fail(PhoneDigitsMessage)
  {
    if phone == [] then Fail(PhoneRequiredMessage)
    else if |Digits(phone)| != 10 then Fail(PhoneDigitsMessage)
    else Pass
  }

  /** The phone number `add_contact` and `update_contact` store: the digits of the raw field. */
  function StoredPhone(raw: string): (stored: string)
    ensures AllDigits(stored)
  {
    Digits(raw)
  }

  /** A phone that `validate_contact` accepts is stored as exactly ten digits. */
  lemma AcceptedPhoneStoredAsTenDigits(raw: string)
    requires ValidatePhone(Strip(raw, IsPySpace)) == Pass
    ensures |StoredPhone(raw)| == 10 && AllDigits(StoredPhone(raw))
  {
    DigitsOfStrip(raw);
  }

  // ---------------------------------------------------------------------------
  // validate_contact

  predicate IsNameChar(c: char) {
    IsLetter(c) || IsPySpace(c) || c == '-' || c == '.' || c == '\''
  }

  /** A name character that survives escaping unchanged: the apostrophe does not. */
  predicate IsPlainNameChar(c: char) {
    IsNameChar(c) && c != '\''
  }

  /** The name rule of `validate_contact`, applied to the sanitised value. */
  predicate NameAccepted(raw: string) {
    var s := Sanitize(raw);
    s != [] && |s| <= 100 && MatchesLine(s, IsNameChar)
  }

  const FirstNameRequiredMessage := "First name is required and must be between 1 and 100 characters"
  const FirstNameInvalidMessage := "First name contains invalid characters"
  const LastNameRequiredMessage := "Last name is required and must be between 1 and 100 characters"
  const LastNameInvalidMessage := "Last name contains invalid characters"
  const AddressLengthMessage := "Address must be less than 255 characters"

  /**
   * The name step of `validate_contact`: "required" when the sanitised name
   * is empty or over 100 characters, "invalid" when it breaks the pattern.
   */
  function NameError(raw: string, required: string, invalid: string): (r: Option<string>)
    ensures r.None? <==> NameAccepted(raw)
    ensures r.Some? ==>
      r.value == (if Strip(raw, IsPySpace) == [] || |Sanitize(raw)| > 100 then required else invalid)
  {
    var s := Sanitize(raw);
    if s == [] || |s| > 100 then Some(required)
    else if !MatchesLine(s, IsNameChar) then Some(invalid)
    else None
  }

  /** The phone step of `validate_contact`: `validate_phone` on the stripped value. */
  function PhoneError(raw: string): (r: Option<string>)
    ensures r.None? <==> ValidatePhone(Strip(raw, IsPySpace)) == Pass
    ensures r.Some? ==> r.value == ValidatePhone(Strip(raw, IsPySpace)).message
  {
    var check := ValidatePhone(Strip(raw, IsPySpace));
    if check.Fail? then Some(check.message) else None
  }

  /** The email step of `validate_contact`: `validate_email` on the stripped value. */
  function EmailError(raw: string): (r: Option<string>)
    ensures r.None? <==> ValidateEmail(Strip(raw, IsPySpace)) == Pass
    ensures r.Some? ==> r.value == EmailInvalidMessage
  {
    var check := ValidateEmail(Strip(raw, IsPySpace));
    if check.Fail? then Some(check.message) else None
  }

  /** The address step of `validate_contact`: only the sanitised length is checked. */
  function AddressError(raw: string): (r: Option<string>)
    ensures r.None? <==> |Sanitize(raw)| <= 255
    ensures r.Some? ==> r.value == AddressLengthMessage
  {
    var s := Sanitize(raw);
    if s != [] && |s| > 255 then Some(AddressLengthMessage) else None
  }

  /** Everything `validate_contact` demands of a contact. */
  predicate ContactAccepted(data: ContactInput) {
    NameAccepted(data.firstName) && NameAccepted(data.lastName)
    && ValidatePhone(Strip(data.phoneNumber, IsPySpace)) == Pass
    && ValidateEmail(Strip(data.emailAddress, IsPySpace)) == Pass
    && |Sanitize(data.address)| <= 255
  }

  /**
   * `validate_contact`: a name error is "required" when the sanitised name
   * is empty or over 100 characters and "invalid" otherwise; phone and email
   * go through their validators after stripping; the address errs only when
   * its sanitised form is over 255 characters.
   */
  method ValidateContact(data: ContactInput) returns (errors: FieldErrors)
    ensures FirstName in errors <==> !NameAccepted(data.firstName)
    ensures FirstName in errors ==>
      errors[FirstName] == (if Strip(data.firstName, IsPySpace) == [] || |Sanitize(data.firstName)| > 100
                       then FirstNameRequiredMessage else FirstNameInvalidMessage)
    ensures LastName in errors <==> !NameAccepted(data.lastName)
    ensures LastName in errors ==>
      errors[LastName] == (if Strip(data.lastName, IsPySpace) == [] || |Sanitize(data.lastName)| > 100
                       then LastNameRequiredMessage else LastNameInvalidMessage)
    ensures PhoneNumber in errors <==> ValidatePhone(Strip(data.phoneNumber, IsPySpace)) != Pass
    ensures PhoneNumber in errors ==> errors[PhoneNumber] == ValidatePhone(Strip(data.phoneNumber, IsPySpace)).message
    ensures EmailAddress in errors <==> ValidateEmail(Strip(data.emailAddress, IsPySpace)) != Pass
    ensures EmailAddress in errors ==> errors[EmailAddress] == EmailInvalidMessage
    ensures Address in errors <==> |Sanitize(data.address)| > 255
    ensures Address in errors ==> errors[Address] == AddressLengthMessage
    ensures errors == map[] <==> ContactAccepted(data)
  {
    var firstName := NameError(data.firstName, FirstNameRequiredMessage, FirstNameInvalidMessage);
    var lastName := NameError(data.lastName, LastNameRequiredMessage, LastNameInvalidMessage);
    var phone := PhoneError(data.phoneNumber);
    var email := EmailError(data.emailAddress);
    var address := AddressError(data.address);
    errors := RecordErrors(firstName, lastName, phone, email, address);
  }

  lemma AcceptedNameIsPlain(raw: string)
    requires NameAccepted(raw)
    ensures 1 <= |Strip(raw, IsPySpace)| <= 100 && All(Strip(raw, IsPySpace), IsPlainNameChar)
  {
    var s, r := Strip(raw, IsPySpace), Sanitize(raw);
    SanitizedNoFinalNewline(raw);
    MatchesLineNoNewline(r, IsNameChar);
    assert r == Escape(s) && All(r, IsNameChar);
    EscapeWithinClass(s, IsNameChar);
  }

  lemma PlainNameAccepted(raw: string)
    requires 1 <= |Strip(raw, IsPySpace)| <= 100 && All(Strip(raw, IsPySpace), IsPlainNameChar)
    ensures NameAccepted(raw)
  {
    var s, r := Strip(raw, IsPySpace), Sanitize(raw);
    assert forall i :: 0 <= i < |s| ==> !IsMarkup(s[i]) by {
      forall i | 0 <= i < |s| ensures !IsMarkup(s[i]) {
        assert IsPlainNameChar(s[i]);
      }
    }
    EscapePlain(s);
    assert raw != [];
    assert r == s;
  }

  /**
   * The name rule, stated on the input: 1 to 100 characters after stripping,
   * each a letter, whitespace, `-` or `.`. An apostrophe is never accepted,
   * because the pattern sees the escaped `&#x27;`.
   */
  lemma NameAcceptedIff(raw: string)
    ensures NameAccepted(raw) <==> 1 <= |Strip(raw, IsPySpace)| <= 100 && All(Strip(raw, IsPySpace), IsPlainNameChar)
  {
    if NameAccepted(raw) {
      AcceptedNameIsPlain(raw);
    }
    if 1 <= |Strip(raw, IsPySpace)| <= 100 && All(Strip(raw, IsPySpace), IsPlainNameChar) {
      PlainNameAccepted(raw);
    }
  }

  /** A first or last name holding any of `' " & < >` is always rejected. */
  lemma MarkupNameRejected(raw: string, i: int)
    requires 0 <= i < |raw| && IsMarkup(raw[i])
    ensures !NameAccepted(raw)
  {
    assert !IsPySpace(raw[i]);
    StripKeeps(raw, IsPySpace, i);
    var s := Strip(raw, IsPySpace);
    var k :| 0 <= k < |s| && s[k] == raw[i];
    assert !IsPlainNameChar(s[k]);
    assert !All(s, IsPlainNameChar);
    NameAcceptedIff(raw);
  }

  // ---------------------------------------------------------------------------
  // register and login

  const CredentialsRequiredMessage := "Username and password are required"

  /**
   * The checks `register` makes before touching the database: the sanitised
   * username first, then the password.
   */
  function RegisterCheck(username: string, password: string): (r: Check)
    ensures r == Pass <==>
      3 <= |Strip(username, IsPySpace)| <= 50 && All(Strip(username, IsPySpace), IsUsernameChar) && StrongPassword(password)
    ensures ValidateUsername(Sanitize(username)) != Pass ==> r == ValidateUsername(Sanitize(username))
    ensures ValidateUsername(Sanitize(username)) == Pass ==> r == ValidatePassword(password)
  {
    SanitizedUsernameAccepted(username);
    var u := ValidateUsername(Sanitize(username));
    if u != Pass then u else ValidatePassword(password)
  }

  /**
   * The check `login` makes before looking the user up: the username is
   * sanitised, the password is taken as sent.
   */
  function LoginCheck(username: string, password: string): (r: Check)
    ensures r == Pass <==> Strip(username, IsPySpace) != [] && password != []
    ensures r != Pass ==> r == Fail(CredentialsRequiredMessage)
  {
    if Sanitize(username) == [] || password == [] then Fail(CredentialsRequiredMessage) else Pass
  }
}
