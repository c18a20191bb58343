/**
 * How the parts of the system agree and disagree: the header the client
 * sends against what the servers read, and the validation rules of the
 * client form, the current server (backend/app.py) and the older server
 * variant (backend/app_hybrid.py) against one another.
 */
module Interop {
  import opened Wrappers
  import opened Text
  import AppValidation
  import HybridValidation
  import ContactForm
  import ServerAuth
  import ClientSession

  // ---------------------------------------------------------------------------
  // The Authorization header

  /** A text without spaces is its own first word. */
  lemma FirstWordOfWord(t: string)
    requires ' ' !in t
    ensures ServerAuth.FirstWord(t) == t
  {
    var r := ServerAuth.FirstWord(t);
    if |r| < |t| {
      assert false;
    }
  }

  /** The server reads back exactly the token the client attached. */
  lemma BearerRoundTrip(token: string)
    requires token != [] && ' ' !in token
    ensures ServerAuth.ExtractBearer(Some(ClientSession.AuthorizationHeader(Some(token)))) == Some(token)
  {
    var h := ClientSession.AuthorizationHeader(Some(token));
    assert h == ServerAuth.BearerPrefix + token;
    assert h[..|ServerAuth.BearerPrefix|] == ServerAuth.BearerPrefix;
    assert h[|ServerAuth.BearerPrefix|..] == token;
    FirstWordOfWord(token);
  }

  /** A signed-out client's requests are refused as carrying no token. */
  lemma SignedOutClientRefused(decode: string -> map<string, string>)
    ensures ServerAuth.TokenRequired(Some(ClientSession.AuthorizationHeader(None)), decode)
         == ServerAuth.Denied(401, ServerAuth.MissingMessage)
  {
  }

  /** A signed-in client whose token decodes to claims is let through with those claims. */
  lemma SignedInClientGranted(token: string, decode: string -> map<string, string>)
    requires token != [] && ' ' !in token
    requires decode(token) != map[] && "error" !in decode(token)
    ensures ServerAuth.TokenRequired(Some(ClientSession.AuthorizationHeader(Some(token))), decode)
         == ServerAuth.Granted(decode(token))
  {
    BearerRoundTrip(token);
  }

  // ---------------------------------------------------------------------------
  // Phone numbers

  /** A phone the older server accepts (ten bare digits) the current server accepts too. */
  lemma HybridPhoneAcceptedByApp(raw: string)
    requires HybridValidation.PhoneAccepted(raw)
    ensures AppValidation.ValidatePhone(Strip(raw, IsPySpace)) == AppValidation.Pass
  {
    DigitsOfDigits(Strip(raw, IsPySpace));
  }

  /** `ddd-ddd-dddd` passes the current server, which drops separators, but not the older one. */
  lemma DashedPhoneOnlyApp(a: string, b: string, c: string)
    requires |a| == 3 && |b| == 3 && |c| == 4 && AllDigits(a) && AllDigits(b) && AllDigits(c)
    ensures var phone := a + "-" + b + "-" + c;
      AppValidation.ValidatePhone(Strip(phone, IsPySpace)) == AppValidation.Pass
      && !HybridValidation.PhoneAccepted(phone)
  {
    var phone := a + "-" + b + "-" + c;
    StripUnpadded(phone, IsPySpace);
    DigitsOfDigits(a);
    DigitsOfDigits(b);
    DigitsOfDigits(c);
    assert Digits("-") == [] by { assert Digits("-") == [] + Digits(""); }
    DigitsConcat(a, "-");
    DigitsConcat(a + "-", b);
    DigitsConcat(a + "-" + b, "-");
    DigitsConcat(a + "-" + b + "-", c);
    assert |Digits(phone)| == 10;
    assert phone[3] == '-';
  }

  /** A phone the form accepts that holds ten digits is accepted by the current server. */
  lemma FormPhoneWithTenDigitsAcceptedByApp(phone: string)
    requires ContactForm.PhoneError(phone).None? && |Digits(phone)| == 10
    ensures AppValidation.ValidatePhone(Strip(phone, IsPySpace)) == AppValidation.Pass
  {
    DigitsOfStrip(phone);
  }

  /** The form passes a phone with no digits at all, which the current server refuses. */
  lemma FormPhoneWithoutDigitsRefusedByApp()
    ensures ContactForm.PhoneError("-------").None?
    ensures AppValidation.ValidatePhone(Strip("-------", IsPySpace)) != AppValidation.Pass
  {
    ContactForm.PhonePatternWithoutDigits();
    var dashes := "-------";
    assert !IsPySpace(dashes[0]);
    StripUnpadded(dashes, IsPySpace);
  }

  // ---------------------------------------------------------------------------
  // Email addresses

  /** An address the current server accepts, the older one accepts too. */
  lemma AppEmailAcceptedByHybrid(raw: string)
    requires AppValidation.ValidateEmail(Strip(raw, IsPySpace)) == AppValidation.Pass
    ensures HybridValidation.EmailAccepted(raw)
  {
    var s := Strip(raw, IsPySpace);
    if s != [] {
      assert s[|s| - 1] != '\n';
      AppValidation.EmailShapeHasAtAndDot(s);
    }
  }

  /** An address the current server accepts, the form accepts too. */
  lemma AppEmailAcceptedByForm(email: string)
    requires AppValidation.EmailShape(email)
    ensures ContactForm.EmailPattern(email)
  {
    var i, j :| 0 < i < j < |email|
      && email[i] == '@' && email[j] == '.' && i + 1 < j && j + 2 < |email|
      && All(email[..i], AppValidation.IsEmailLocalChar)
      && All(email[i + 1..j], AppValidation.IsEmailDomainChar)
      && All(email[j + 1..], IsLetter);
    var local, domain, top := email[..i], email[i + 1..j], email[j + 1..];
    assert All(local, ContactForm.IsAddressChar) by {
      forall k | 0 <= k < |local| ensures ContactForm.IsAddressChar(local[k]) {
        assert AppValidation.IsEmailLocalChar(local[k]);
      }
    }
    assert All(domain, ContactForm.IsAddressChar) by {
      forall k | 0 <= k < |domain| ensures ContactForm.IsAddressChar(domain[k]) {
        assert AppValidation.IsEmailDomainChar(domain[k]);
      }
    }
    assert All(top, ContactForm.IsAddressChar) by {
      forall k | 0 <= k < |top| ensures ContactForm.IsAddressChar(top[k]) {
        assert IsLetter(top[k]);
      }
    }
  }

  /** A one-letter top-level domain passes the form but not the current server. */
  lemma ShortDomainOnlyForm()
    ensures ContactForm.EmailPattern("a@b.c")
    ensures !AppValidation.EmailShape("a@b.c")
  {
    ContactForm.EmailPatternAccepts();
  }

  /** A trailing dot passes the older server's `@`-and-`.` test but not the current server. */
  lemma TrailingDotOnlyHybrid()
    ensures HybridValidation.EmailAccepted("a@b.")
    ensures AppValidation.ValidateEmail(Strip("a@b.", IsPySpace)) != AppValidation.Pass
  {
    var e := "a@b.";
    assert !IsPySpace(e[0]) && !IsPySpace(e[3]);
    StripUnpadded(e, IsPySpace);
    assert '@' == e[1] && '.' == e[3];
  }

  // ---------------------------------------------------------------------------
  // Names

  /** A name the current server accepts is not blank, so the older server accepts it. */
  lemma AppNameAcceptedByHybrid(raw: string)
    requires AppValidation.NameAccepted(raw)
    ensures HybridValidation.RequiredError(raw, HybridValidation.FirstNameRequiredMessage).None?
  {
    AppValidation.NameAcceptedIff(raw);
    StripEmptyIffBlank(raw, IsPySpace);
  }

  /** A name with an apostrophe, such as `O'Brien`, passes the older server only. */
  lemma ApostropheNameOnlyHybrid(raw: string, i: int)
    requires 0 <= i < |raw| && raw[i] == '\''
    ensures !AppValidation.NameAccepted(raw)
    ensures HybridValidation.RequiredError(raw, HybridValidation.FirstNameRequiredMessage).None?
  {
    AppValidation.MarkupNameRejected(raw, i);
    assert !IsPySpace(raw[i]);
  }
}
