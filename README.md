# Contact book: a Dafny model of its decision logic

This project models the decision logic of a small contact-book web application. The application has three parts:

- a React client (`frontend/src/App.js`, `ContactForm.js` and `SearchScreen.js`);
- a Flask server (`backend/app.py`);
- an older variant of the same server (`backend/app_hybrid.py`).

The model covers the following.

- **Client session (`ClientSession`).** This module covers:
  - the token-expiry policy, which runs on load and on the minute tick;
  - forced and explicit logout, token refresh and login;
  - the 401 response interceptor;
  - paged fetching, with a page either replacing the list or appended to it;
  - the poll and scroll guards;
  - multi-select, error-text extraction and the expiry banner.

  Each handler is a pure transition on a `Session` value. The class `ContactBookApp` holds the same state in fields. Each of its methods is proved to perform its transition and to keep local storage in step with the auth fields.
- **Server validation (`AppValidation`).** This covers `sanitize_input` (strip, then HTML-escape), the username, password, email and phone validators, `validate_contact`, and the credential checks of `register` and `login`.
- **Older server variant (`HybridValidation`).** This covers its `validate_contact` and its strip-then-required credential check.
- **Shared server code.** Both servers share `token_required` header parsing, the login reply (`ServerAuth`), `get_contacts` parameter normalisation and filter building (`ContactQuery`), and the CSV import row loop (`ContactImport`). This code is the same in both servers, so it is modelled once.
- **Client form (`ContactForm`).** This covers `validate` and the submit gate.
- **Search screen (`SearchScreen`).** This covers the case-insensitive filter, `formatPhone`, `getContactInitials` and `getContactName`.
- **Cross-module lemmas (`Interop`).** These relate the header the client sends to what the servers read. They also compare the three sets of validation rules with one another.

Shared string helpers live in `Text`: ASCII character classes, whitespace stripping over a given whitespace class (the server's Python class, which also counts the separators U+001C to U+001F, and the client's narrower JavaScript class), digit extraction, lower-casing, substring search and join. The contact records and the field-to-message error map live in `Contacts`.

These things are parameters rather than modelled code:

- server replies;
- the decoded token payload and the JWT decoder;
- the clock, as integer seconds;
- the user's existing phone numbers;
- INSERT failures, given per row.

Toggling a contact's selection twice restores the selection only when the contact was not selected before. When it was, the contact comes back at the end of the list, with the same members (`ClientSession.ToggleTwice`).

The code is followed wherever it differs from the written description of the system. In particular, the client sends a `q` search parameter to `GET /api/contacts`, but neither server reads it. The server model therefore has no free-text search. Only the five per-field `LIKE` filters are modelled.

## Model

| member | source | states |
|---|---|---|
| AppValidation.Escape | backend/app.py:182-186 | The escaped text holds no raw `<`, `>`, `"` or `'`; it is empty exactly when the input is |
| AppValidation.UnescapeEscape | backend/app.py:182-186 | HTML escaping loses nothing: decoding the five entities gives the input back |
| AppValidation.EscapePlain | backend/app.py:182-186 | Text without markup characters is left unchanged by escaping |
| AppValidation.EscapeWithinClass | backend/app.py:182-186 | If the escaped text lies in a character class without `&`, the input had no markup and was unchanged |
| AppValidation.EscapeLast | backend/app.py:182-186 | The escaped text ends in `;` or in the input's own last character |
| AppValidation.Sanitize | backend/app.py:182-186 | `sanitize_input` is empty exactly when the stripped input is, and holds no raw markup character |
| AppValidation.SanitizeRoundTrip | backend/app.py:182-186 | Unescaping the sanitised text gives the stripped input back |
| AppValidation.SanitizedNoFinalNewline | backend/app.py:182-186 | A sanitised text never ends in a newline, so the `$` newline case of `re.match` never arises for it |
| AppValidation.MatchesLineNoNewline | backend/app.py:192 | Without a final newline, `^[C]+$` is "one or more characters of the class" |
| AppValidation.ValidateUsername | backend/app.py:188-194 | Passes iff the length is 3 to 50 and the pattern matches; the length message is reported first, the character message otherwise |
| AppValidation.SanitizedUsernameAccepted | backend/app.py:271-276 | `register` accepts a username iff it has 3 to 50 characters after stripping, all letters, digits, `_` or `-` |
| AppValidation.ValidatePassword | backend/app.py:196-206 | Passes iff at least 8 characters with an upper-case letter, a lower-case letter and a digit; the length message iff too short, the upper-case message iff long enough without an upper-case letter, the lower-case message iff it has one but no lower-case letter, the digit message iff only the digit is missing |
| AppValidation.ValidateEmail | backend/app.py:208-215 | The empty address passes; otherwise it passes iff it has the `local@domain.tld` shape, with a trailing newline allowed; the single failure message |
| AppValidation.EmailShapeHasAtAndDot | backend/app.py:212 | An address of the accepted shape holds `@` and `.` |
| AppValidation.ValidatePhone | backend/app.py:217-225 | Empty is "required"; otherwise passes iff exactly ten digits remain once non-digits are dropped |
| AppValidation.StoredPhone | backend/app.py:459 | The stored phone is digits only |
| AppValidation.AcceptedPhoneStoredAsTenDigits | backend/app.py:244-248 | A phone `validate_contact` accepts is stored as exactly ten digits |
| AppValidation.NameError | backend/app.py:230-241 | No error iff the sanitised name is 1 to 100 characters of the name class; "required" for an empty or over-long name, "invalid" otherwise |
| AppValidation.PhoneError | backend/app.py:245-248 | The phone step errs iff `validate_phone` on the stripped value fails, with its message |
| AppValidation.EmailError | backend/app.py:251-254 | The email step errs iff `validate_email` on the stripped value fails |
| AppValidation.AddressError | backend/app.py:257-259 | The address errs iff its sanitised form exceeds 255 characters |
| AppValidation.ValidateContact | backend/app.py:227-261 | Each field is a key of the map iff its check fails, with that check's message; the address key is present iff it is too long; the map is empty iff the contact is accepted |
| AppValidation.NameAcceptedIff | backend/app.py:230-241 | A name is accepted iff it has 1 to 100 characters after stripping, each a letter, whitespace, `-` or `.`; an apostrophe never passes |
| AppValidation.AcceptedNameIsPlain | backend/app.py:230-235 | An accepted name has 1 to 100 plain name characters after stripping |
| AppValidation.PlainNameAccepted | backend/app.py:230-235 | A name of 1 to 100 plain name characters after stripping is accepted |
| AppValidation.MarkupNameRejected | backend/app.py:230-241 | A name holding any of `' " & < >` is always rejected |
| AppValidation.RegisterCheck | backend/app.py:271-281 | `register` passes iff the stripped username is 3 to 50 username characters and the password is strong; a username failure is reported first, and with a valid username the reply is the password check's own verdict and message |
| AppValidation.LoginCheck | backend/app.py:324-329 | `login` passes iff the stripped username and the raw password are non-empty; otherwise "required" |
| Contacts.ErrorMap | backend/app.py:227-261 | A field is a key iff its check produced a message, and maps to that message; the map is empty iff no check failed |
| Contacts.RecordErrors | backend/app.py:228 | The error dictionary, filled field by field, is the error map of the five checks |
| HybridValidation.RequiredError | backend/app_hybrid.py:153-156 | A name errs iff blank after stripping, with the field's message |
| HybridValidation.PhoneError | backend/app_hybrid.py:157-161 | The phone errs iff the stripped value is not ten bare digits; "required" when blank, "10 digits" otherwise |
| HybridValidation.EmailError | backend/app_hybrid.py:162-164 | The email errs iff non-empty after stripping and missing `@` or `.` |
| HybridValidation.ValidateContact | backend/app_hybrid.py:151-165 | Per-field iff and messages as above; the address is never a key; the map is empty iff the contact is accepted |
| HybridValidation.CredentialsCheck | backend/app_hybrid.py:220-223 | `register` and `login` pass iff neither stripped credential is empty |
| ServerAuth.FirstWord | backend/app.py:169 | `split(' ')[0]`: a prefix holding no space, followed by a space or the end |
| ServerAuth.ExtractBearer | backend/app.py:166-169 | A token is read iff the header starts with `Bearer `; the token is the next space-free word after the prefix |
| ServerAuth.TokenRequired | backend/app.py:162-180 | 401 "missing" iff no or empty bearer token; the route runs iff the claims decode and hold no error, with those claims; "expired" iff the decoder reports expiry; "Token is invalid!" iff a token is present and its claims are empty or carry any other error |
| ServerAuth.NoSchemeNoAccess | backend/app.py:166-172 | A header without the `Bearer ` scheme is refused as missing, whatever the decoder says |
| ServerAuth.EmptyBearerIsMissing | backend/app.py:166-172 | `Bearer ` followed by nothing or a space is refused as missing |
| ServerAuth.Columns | init_database.py:37-48 | A user row in column order: the role is column 3 and gmail column 4 |
| ServerAuth.LoginRoleAsWritten | backend/app.py:345 | As written: the fifth column when the row has more than four, else `'user'` |
| ServerAuth.LoginRoleAsWrittenIsGmail | backend/app.py:345-349 | As written, the role `login` returns and signs is the user's gmail column |
| ServerAuth.LoginRoleAsWrittenLosesRole | backend/app.py:345-349 | An administrator without a gmail address logs in with a null role |
| ServerAuth.LoginRole | backend/app.py:345 | Corrected: the role column, with the same `'user'` fallback for a short row |
| ServerAuth.LoginRoleIsRole | backend/app.py:345-349 | With the correction every user logs in with the role stored for them |
| ServerAuth.LoginAsWritten | backend/app.py:340-352 | As written: success iff the user exists and the password matches; the reply and the token claims carry the user's id, name and gmail column as the role; otherwise 401 with the fixed message |
| ServerAuth.Login | backend/app.py:340-352 | Corrected reply: success iff the user exists and the password matches; the reply and the token claims carry the user's id, name and stored role; otherwise 401 with the fixed message |
| ServerAuth.LoginAsWrittenLosesAdminRole | backend/app.py:340-352 | An administrator without a gmail address gets a null role from `login` as written and `admin` from the corrected reply |
| ContactQuery.NormalizeSort | backend/app.py:386-393 | The sort column is always whitelisted: the requested one when allowed, `last_name` otherwise |
| ContactQuery.NormalizeOrder | backend/app.py:386-393 | The order is always `asc` or `desc`: the requested one when allowed, `asc` otherwise |
| ContactQuery.PageOfRow | backend/app.py:383-385 | With a positive limit, the pages' row ranges partition the rows: a row lies on page `p` iff `p` is its index divided by the limit, plus one |
| ContactQuery.ActiveFields | backend/app.py:395-401 | The filtered fields are whitelisted fields with a non-empty parameter |
| ContactQuery.ActiveFieldsComplete | backend/app.py:395-401 | Every whitelisted field with a non-empty parameter is filtered on |
| ContactQuery.ActiveFieldsSameShape | backend/app.py:395-401 | Which fields are filtered depends only on which parameters are non-empty |
| ContactQuery.Pattern | backend/app.py:400 | The bound value is the parameter wrapped in `%` |
| ContactQuery.Clauses | backend/app.py:399 | One `LIKE %s` clause per filtered field, in order |
| ContactQuery.BuildFilters | backend/app.py:395-401 | One clause per filtered field in whitelist order; the values are the user id, then one `%value%` per clause, in the same order |
| ContactQuery.WhereClause | backend/app.py:403 | Without filters the condition is the user id alone; with filters it still starts with the user id condition |
| ContactQuery.WhereSnoc | backend/app.py:403 | Each further filter clause is appended after ` AND `, so the condition is the user id condition followed by every clause in order |
| Text.JoinSnoc | backend/app.py:403 | Joining one more part appends the separator and that part |
| ContactQuery.QueryTextIgnoresValues | backend/app.py:386-418 | The SQL text never depends on parameter values, only on which fields are filtered and on the normalised sort |
| ContactImport.Decimal | backend/app.py:653 | A row number prints as decimal digits that denote it, with no leading zero, as an f-string prints it |
| ContactImport.ReadRows | backend/app.py:645-649 | Each record is the stripped cells of its row |
| ContactImport.ClassifyRow | backend/app.py:651-678 | Imported iff names and phone present, the phone new to the user, ten digits and the INSERT succeeds; a duplicate iff present and already known; a missing field gives the "missing" message for its row; a present, new phone that is not ten digits gives the phone message; a valid new row whose INSERT fails gives that failure's text |
| ContactImport.SpecStep | backend/app.py:643 | Importing one more row is one more step of the loop |
| ContactImport.ImportRow | backend/app.py:651-678 | One loop iteration moves the counters, error list, added contacts and known phones exactly as the row-by-row fold does |
| ContactImport.ImportContacts | backend/app.py:643-678 | The loop's counters, error list and added contacts are those of the row-by-row fold |
| ContactImport.ImportInvariant | backend/app.py:643-690 | Every row is counted once; errors are at most the skipped rows; the known phones are the old ones plus each added contact's; added phones are ten digits, new, and pairwise distinct |
| ContactImport.DuplicateLeavesNoError | backend/app.py:657-664 | A row whose phone the user has is skipped with no error entry |
| ClientSession.Read | frontend/src/App.js:39 | `getItem` finds a value iff the key is stored |
| ClientSession.Initial | frontend/src/App.js:14-66 | The first state is consistent: auth as read from storage, page 1, nothing selected |
| ClientSession.LogoutClearsCredentials | frontend/src/App.js:70-79 | A forced logout nulls all three credentials, removes the three keys and nothing else, empties the list, clears the error and sets the expiry message; `handleLogout` does the same without the message |
| ClientSession.ForceLogoutIdempotent | frontend/src/App.js:70-79 | A second forced logout changes nothing |
| ClientSession.SignInSynced | frontend/src/App.js:86-89 | New credentials are stored in the state and storage together, other keys untouched |
| ClientSession.RefreshAllOrNothing | frontend/src/App.js:82-97 | A refresh replaces all three credentials together, or has exactly the effect of one forced logout, whatever the failure status |
| ClientSession.ErrorText | frontend/src/App.js:270-279 | The `error` text first, then the `errors` values joined by ` \| `, then the fallback |
| ClientSession.RejectedLoginShowsReason | frontend/src/App.js:379-393 | A 401 login clears stored credentials and shows the server's reason |
| ClientSession.Classify | frontend/src/App.js:100-120 | Logout iff `exp - now < 0`, refresh iff `0 <= exp - now < 300`, nothing iff `>= 300`; an unreadable payload logs out; a missing `exp` does nothing |
| ClientSession.BadTokenLogsOut | frontend/src/App.js:147-172 | An unreadable or expired token ends the session, on load and on the tick alike |
| ClientSession.ExpiryBanner | frontend/src/App.js:715-726 | The banner shows between 1 and 30 minutes, urgent iff at most 10; the minutes shown are the whole minutes left, rounded down; no banner for an unreadable payload or a missing expiry |
| ClientSession.BannerInSeconds | frontend/src/App.js:721-725 | In seconds: shown iff `60 <= exp - now < 1860`, urgent iff below 660 |
| ClientSession.RefreshWindowBanner | frontend/src/App.js:106-114 | While a refresh is due the banner, when shown, is urgent, and in the last minute it is hidden |
| ClientSession.FetchEffect | frontend/src/App.js:181-205 | A page replaces or is appended to the list, `hasMore == pageNum*limit < total`; a failure keeps the list unless it was a 401; loading ends false either way |
| ClientSession.AppendKeepsPrefix | frontend/src/App.js:194-195 | An appended page keeps the list on screen as a prefix |
| ClientSession.PollOnlyWhenIdle | frontend/src/App.js:216-233 | The poll changes nothing unless signed in, auto-refresh on and nothing loading, edited or e-mailed; then page 1 replaces the list |
| ClientSession.ScrollOnlyWithMore | frontend/src/App.js:244-262 | A scroll changes nothing unless idle with more to load and near the bottom; then page+1 is appended |
| ClientSession.Toggle | frontend/src/App.js:494-502 | A present id is removed, the others kept in order with their counts; an absent one is appended |
| ClientSession.Remove | frontend/src/App.js:497 | The filtered list holds exactly the other ids, each as often as before |
| ClientSession.RemoveConcat | frontend/src/App.js:497 | Removal goes element by element: it distributes over concatenation, so the other ids keep their order |
| ClientSession.RemoveSingleton | frontend/src/App.js:497 | A single id is dropped iff it is the removed one |
| ClientSession.RemoveNoDuplicates | frontend/src/App.js:497 | Removing keeps the list duplicate-free |
| ClientSession.RemoveLast | frontend/src/App.js:497 | Removing an id just appended gives the list back |
| ClientSession.ToggleNoDuplicates | frontend/src/App.js:494-502 | The selection never holds an id twice |
| ClientSession.ToggleTwice | frontend/src/App.js:494-502 | Toggling twice restores a selection without the id; with it, the id moves to the end; the members are always the same |
| ClientSession.ToggleTwiceMovesToEnd | frontend/src/App.js:494-502 | `[1, 2]` toggled twice on 1 is `[2, 1]` |
| ClientSession.CredentialsKeepConsistent | frontend/src/App.js:70-97 | Logouts, sign-in and the interceptor keep storage in step with the auth fields |
| ClientSession.SessionEventsKeepConsistent | frontend/src/App.js:82-172 | Refresh, login and the expiry checks keep the state consistent |
| ClientSession.FetchKeepsConsistent | frontend/src/App.js:181-205 | A fetch keeps the state consistent |
| ClientSession.ListEventsKeepConsistent | frontend/src/App.js:216-262 | Reload, poll, scroll and filter changes keep the state consistent |
| ClientSession.ContactBookApp.constructor | frontend/src/App.js:14-66 | The fields start as the initial state for the saved storage |
| ClientSession.ContactBookApp.HandleAutoLogout | frontend/src/App.js:70-79 | The fields become the forced-logout state and stay consistent |
| ClientSession.ContactBookApp.HandleLogout | frontend/src/App.js:406-414 | The fields become the signed-out state |
| ClientSession.ContactBookApp.OnResponseError | frontend/src/App.js:123-139 | A 401 forces a logout; any other status changes nothing |
| ClientSession.ContactBookApp.StoreCredentials | frontend/src/App.js:86-89 | The three credentials are set in the fields and in storage |
| ClientSession.ContactBookApp.RefreshToken | frontend/src/App.js:82-97 | The fields take the refresh transition, and the result is true iff new credentials arrived |
| ClientSession.ContactBookApp.CheckTokenExpiration | frontend/src/App.js:100-120 | The fields take the expiry-check transition on the stored token |
| ClientSession.ContactBookApp.Tick | frontend/src/App.js:147-172 | While a token is held, the same check runs |
| ClientSession.ContactBookApp.HandleLogin | frontend/src/App.js:379-393 | The fields take the login transition |
| ClientSession.ContactBookApp.FetchContacts | frontend/src/App.js:181-205 | The fields take the fetch transition; no token, no change |
| ClientSession.ContactBookApp.ReceivePage | frontend/src/App.js:194-201 | A received page is shown, with total and `hasMore` |
| ClientSession.ContactBookApp.ReceiveFailure | frontend/src/App.js:202-205 | A failure sets the error text after the interceptor |
| ClientSession.ContactBookApp.Reload | frontend/src/App.js:236-240 | A replace fetch of page 1, then page 1 |
| ClientSession.ContactBookApp.Poll | frontend/src/App.js:216-233 | The reload runs only under the poll guard |
| ClientSession.ContactBookApp.Scroll | frontend/src/App.js:244-262 | Page+1 is appended only under the scroll guard |
| ClientSession.ContactBookApp.HandleFilterChange | frontend/src/App.js:367-373 | One filter is set and page 1 reloaded |
| ClientSession.ContactBookApp.HandleContactSelect | frontend/src/App.js:494-502 | Only the selection changes, by the toggle, and it stays duplicate-free |
| ContactForm.NameError | frontend/src/ContactForm.js:5-6 | A name errs iff blank after trimming, with the field's message |
| ContactForm.PhoneError | frontend/src/ContactForm.js:7-11 | The phone errs iff blank or not 7 to 15 of digits, dashes and whitespace; "required" for blank |
| ContactForm.EmailError | frontend/src/ContactForm.js:12-14 | The email errs iff non-empty and not of the `x@y.z` shape |
| ContactForm.Validate | frontend/src/ContactForm.js:3-16 | Each key present iff its rule fails, with its message; the address is never checked; empty iff the form is accepted |
| ContactForm.HandleSubmit | frontend/src/ContactForm.js:21-28 | The errors shown are those of `validate`, and `onSubmit` is called iff there are none |
| ContactForm.EmailPatternOneAt | frontend/src/ContactForm.js:12 | An accepted email has exactly one `@`, not first, and no whitespace |
| ContactForm.EmailPatternAccepts | frontend/src/ContactForm.js:12 | `a@b.c` is accepted |
| ContactForm.EmailPatternRejects | frontend/src/ContactForm.js:12 | `a@b`, `a@.c` and `a b@c.d` are rejected |
| ContactForm.PhonePatternWithoutDigits | frontend/src/ContactForm.js:9 | Seven dashes pass the phone rule though they hold no digit |
| SearchScreen.MatchesByFullName | frontend/src/SearchScreen.js:16-26 | The first- and last-name tests are implied by the full-name test |
| SearchScreen.Filter | frontend/src/SearchScreen.js:16-26 | A contact is in the result iff it is in the list and matches; each matching contact occurs as often as in the list, the others not at all |
| SearchScreen.Search | frontend/src/SearchScreen.js:9-29 | A blank query gives no results; otherwise exactly the matching contacts, each as often as in the list |
| SearchScreen.FilterIsSubsequence | frontend/src/SearchScreen.js:16-26 | The results keep the list's order |
| SearchScreen.SearchResults | frontend/src/SearchScreen.js:9-29 | A non-blank query's results are the filtered list, in list order |
| SearchScreen.Grouped | frontend/src/SearchScreen.js:40-42 | The grouped form has 14 characters: `(`, the first three digits, `) `, the next three, `-`, the last four |
| SearchScreen.GroupedDigits | frontend/src/SearchScreen.js:40-42 | The grouped form's digits are the ten it was made from |
| SearchScreen.FormatPhone | frontend/src/SearchScreen.js:37-45 | Empty for no number, grouped when it holds exactly ten digits, unchanged otherwise |
| SearchScreen.FormatPhoneIdempotent | frontend/src/SearchScreen.js:37-45 | Formatting a formatted number changes nothing |
| SearchScreen.FormatPhoneOfTenDigits | frontend/src/SearchScreen.js:37-45 | Ten bare digits are shown grouped and keep their digits |
| SearchScreen.Initial | frontend/src/SearchScreen.js:48-49 | One upper-cased character iff the field is non-empty |
| SearchScreen.Initials | frontend/src/SearchScreen.js:47-51 | One or two characters; `?` with neither name; two iff both; first and last are the names' upper-cased initials |
| SearchScreen.DisplayName | frontend/src/SearchScreen.js:53-57 | The trimmed full name, or `Unknown Contact` when that is blank; never empty |
| SearchScreen.DisplayNameOfPlainNames | frontend/src/SearchScreen.js:53-57 | Unpadded names show as `first last` |
| Interop.BearerRoundTrip | frontend/src/App.js:175-177 | The servers read back exactly the space-free token the client attaches |
| Interop.SignedOutClientRefused | backend/app.py:170-172 | A signed-out client's requests are refused as carrying no token |
| Interop.SignedInClientGranted | backend/app.py:162-180 | A signed-in client with a valid token is let through with its claims |
| Interop.HybridPhoneAcceptedByApp | backend/app_hybrid.py:157-161 | A phone the older server accepts, the current one accepts |
| Interop.DashedPhoneOnlyApp | backend/app.py:217-225 | `ddd-ddd-dddd` passes the current server and not the older one |
| Interop.FormPhoneWithTenDigitsAcceptedByApp | frontend/src/ContactForm.js:7-11 | A form-accepted phone with ten digits passes the current server |
| Interop.FormPhoneWithoutDigitsRefusedByApp | frontend/src/ContactForm.js:7-11 | The form passes a digit-free phone the current server refuses |
| Interop.AppEmailAcceptedByHybrid | backend/app_hybrid.py:162-164 | An email the current server accepts, the older one accepts |
| Interop.AppEmailAcceptedByForm | frontend/src/ContactForm.js:12-14 | An email the current server accepts, the form accepts |
| Interop.ShortDomainOnlyForm | frontend/src/ContactForm.js:12-14 | `a@b.c` passes the form but not the current server |
| Interop.TrailingDotOnlyHybrid | backend/app_hybrid.py:162-164 | `a@b.` passes the older server but not the current one |
| Interop.AppNameAcceptedByHybrid | backend/app_hybrid.py:153-156 | A name the current server accepts, the older one accepts |
| Interop.ApostropheNameOnlyHybrid | backend/app.py:230-241 | A name with an apostrophe passes the older server only |
| Text.SeparatorIsServerSpaceOnly | backend/app.py:186 | A lone U+001C strips to nothing with the server's whitespace and is kept by the client's `trim` |

## Left out

- Network and persistence I/O are not modelled: axios, Flask routing, MySQL cursors, commits, SMTP, file upload and download. Replies, the user's existing phones and per-row INSERT failures are parameters.
- JWT signing and verification (`encode_auth_token`, `decode_auth_token`) and the client's base64/JSON decoding of the payload are not modelled. Each is a parameter: a claims map on the server, a `Payload` on the client.
- Time is given in whole seconds. `Date.now()/1000` is fractional in the source.
- Timers, effects, listeners and the interceptor's registration are not modelled. Each tick, poll, scroll or response is a discrete method call. A request completes before the next event; interleaving and React's batching are not modelled.
- Character classes, `isdigit` and JavaScript's case mapping are ASCII only. Whitespace is ASCII only too: Python's `strip` and `\s` on the server count space, tab, line feed, carriage return, vertical tab, form feed and U+001C to U+001F; JavaScript's `trim` on the client counts the first six. Non-ASCII whitespace, such as U+00A0 or U+2028, is not modelled on either side.
- Request values are taken to be strings. A JSON `null` or a number in `phone_number` or `email_address` (backend/app.py:245, 251) makes `.strip()` raise. A body that is not JSON also fails. Both end in a 500 reply, and that crash path is not modelled.
- `int()` parsing of `page` and `limit` is not modelled. Both arrive as integers.
- The `refresh_token` route, the export, e-mail and share routes, and the markup are not modelled.
- The client's URL building is not modelled, including its `q`, sort and filter query parameters.
- The search-text, sort and order handlers of `App.js` are not modelled. They trigger the same reload as `HandleFilterChange`.
- The client's `lastRefresh` display time is not modelled.
- `ClientSession.ContactBookApp.StoreCredentials`: `setItem` of `undefined` stores `"undefined"`. The model writes every missing value as `"null"`.
- `ContactImport.ImportContacts`: an exception from the SELECT or from reading the file is not modelled. Only INSERT failures are given, per row.
- `ServerAuth.TokenRequired`: the exception text of a decode failure is not modelled. The decoder's `{"error": ...}` result is.
- `ServerAuth.Login`: models the reply after the credential check and a database lookup given as a parameter. Password hashing is a boolean input.

## Findings

| source | as written | input that shows it | evidently intended | confidence | as-written member | corrected member |
|---|---|---|---|---|---|---|
| backend/app.py:345-349 | `user[4]`, the `gmail` column, is used as the role | an `admin` user whose `gmail` is NULL logs in with role `None` | `user[3]`, the `role` column | not executed | ServerAuth.LoginAsWritten, ServerAuth.LoginAsWrittenLosesAdminRole | ServerAuth.Login |
