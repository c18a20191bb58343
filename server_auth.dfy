/**
 * Request authentication and the login reply of both servers
 * (backend/app.py and backend/app_hybrid.py share this code): the
 * `token_required` decorator's reading of the `Authorization` header
 * (section 2.1 of RFC 6750) and of the decoded claims, and the role the
 * login reply and its token carry.
 *
 * Signing and verifying a JWT is not modelled: `decode` stands for
 * `decode_auth_token`, which yields the claims or an `{"error": ...}`
 * dictionary.
 */
module ServerAuth {
  import opened Wrappers
  import opened Text

  // ---------------------------------------------------------------------------
  // token_required

  const BearerPrefix := "Bearer "

  /** The text of `s` up to its first space: Python's `s.split(' ')[0]`. */
  function FirstWord(s: string): (r: string)
    ensures |r| <= |s| && r == s[..|r|]
    ensures ' ' !in r
    ensures |r| < |s| ==> s[|r|] == ' '
  {
    if s == [] || s[0] == ' ' then [] else [s[0]] + FirstWord(s[1..])
  }

  /**
   * The token `token_required` reads: the second space-separated part of an
   * `Authorization` header that starts with `Bearer `, and nothing otherwise.
   */
  function ExtractBearer(header: Option<string>): (token: Option<string>)
    ensures token.Some? <==> header.Some? && |BearerPrefix| <= |header.value|
                              && header.value[..|BearerPrefix|] == BearerPrefix
    ensures token.Some? ==> ' ' !in token.value
    ensures token.Some? ==>
      var n := |BearerPrefix| + |token.value|;
      n <= |header.value| && header.value[|BearerPrefix|..n] == token.value
      && (n < |header.value| ==> header.value[n] == ' ')
  {
    match header
    case None => None
    case Some(h) =>
      if |BearerPrefix| <= |h| && h[..|BearerPrefix|] == BearerPrefix then
        Some(FirstWord(h[|BearerPrefix|..]))
      else None
  }

  const MissingMessage := "Token is missing!"
  const ExpiredMessage := "Token has expired. Please log in again."
  const InvalidMessage := "Token is invalid!"

  /** The decorator's verdict: the route runs with the claims, or a 401 reply. */
  datatype AuthOutcome = Granted(user: map<string, string>) | Denied(status: int, message: string)

  /**
   * `token_required`: a missing or empty token, a decode error and an empty
   * claims dictionary all stop the request with 401; only `{"error": "expired"}`
   * gets the expiry message.
   */
  function TokenRequired(header: Option<string>, decode: string -> map<string, string>): (r: AuthOutcome)
    ensures r.Denied? ==> r.status == 401
    ensures r == Denied(401, MissingMessage) <==> ExtractBearer(header).None? || ExtractBearer(header) == Some([])
    ensures r.Granted? <==>
      (var token := ExtractBearer(header);
       token.Some? && token.value != [] && decode(token.value) != map[] && "error" !in decode(token.value))
    ensures r.Granted? ==> r.user == decode(ExtractBearer(header).value)
    ensures r == Denied(401, ExpiredMessage) <==>
      (var token := ExtractBearer(header);
       token.Some? && token.value != [] && "error" in decode(token.value) && decode(token.value)["error"] == "expired")
    ensures r == Denied(401, InvalidMessage) <==>
      (var token := ExtractBearer(header);
       token.Some? && token.value != []
       && (decode(token.value) == map[] || ("error" in decode(token.value) && decode(token.value)["error"] != "expired")))
  {
    var token := ExtractBearer(header);
    if token.None? || token.value == [] then Denied(401, MissingMessage)
    else
      var data := decode(token.value);
      if data == map[] || "error" in data then
        if data != map[] && data["error"] == "expired" then Denied(401, ExpiredMessage)
        else Denied(401, InvalidMessage)
      else Granted(data)
  }

  /** A header without the `Bearer ` scheme is never accepted, whatever the decoder says. */
  lemma NoSchemeNoAccess(header: string, decode: string -> map<string, string>)
    requires !(|BearerPrefix| <= |header| && header[..|BearerPrefix|] == BearerPrefix)
    ensures TokenRequired(Some(header), decode) == Denied(401, MissingMessage)
  {
  }

  /** `Bearer ` followed by a space or nothing carries no token. */
  lemma EmptyBearerIsMissing(rest: string, decode: string -> map<string, string>)
    requires rest == [] || rest[0] == ' '
    ensures TokenRequired(Some(BearerPrefix + rest), decode) == Denied(401, MissingMessage)
  {
    var h := BearerPrefix + rest;
    assert h[..|BearerPrefix|] == BearerPrefix;
    assert h[|BearerPrefix|..] == rest;
  }

  // ---------------------------------------------------------------------------
  // login

  /**
   * A row of the `users` table as `SELECT *` returns it: `id`, `username`,
   * `password_hash`, `role`, then the `gmail` and `gmail_app_password`
   * columns the database set-up adds later. A NULL column is `None`.
   */
  datatype UserRecord = UserRecord(
    id: string,
    username: string,
    passwordHash: string,
    role: Option<string>,
    gmail: Option<string>,
    gmailAppPassword: Option<string>)

  /** The tuple the cursor returns for a user, in column order. */
  function Columns(u: UserRecord): (cols: seq<Option<string>>)
    ensures |cols| == 6
    ensures cols[1] == Some(u.username) && cols[3] == u.role && cols[4] == u.gmail
  {
    [Some(u.id), Some(u.username), Some(u.passwordHash), u.role, u.gmail, u.gmailAppPassword]
  }

  /** The role as `login` picks it: `user[4] if len(user) > 4 else 'user'`. */
  function LoginRoleAsWritten(cols: seq<Option<string>>): (role: Option<string>)
    ensures |cols| <= 4 ==> role == Some("user")
  {
    if |cols| > 4 then cols[4] else Some("user")
  }

  /** The fifth column is `gmail`: the reply's role is the user's gmail address. */
  lemma LoginRoleAsWrittenIsGmail(u: UserRecord)
    ensures LoginRoleAsWritten(Columns(u)) == u.gmail
  {
  }

  /** An administrator without a gmail address logs in with a null role. */
  lemma LoginRoleAsWrittenLosesRole()
    ensures var u := UserRecord("1", "alice", "h", Some("admin"), None, None);
            LoginRoleAsWritten(Columns(u)) == None && u.role == Some("admin")
  {
  }

  /** The role column, `user[3]`, with the same `'user'` fallback for a shorter row. */
  function LoginRole(cols: seq<Option<string>>): (role: Option<string>)
    ensures |cols| <= 3 ==> role == Some("user")
  {
    if |cols| > 3 then cols[3] else Some("user")
  }

  /** Reading the role column gives every user the role stored for them. */
  lemma LoginRoleIsRole(u: UserRecord)
    ensures LoginRole(Columns(u)) == u.role
  {
  }

  const InvalidLoginMessage := "Invalid username or password"

  /** The claims `encode_auth_token` signs, besides `exp` and `iat`. */
  datatype TokenClaims = TokenClaims(sub: string, username: string, role: Option<string>)

  datatype LoginReply =
    | LoginOk(claims: TokenClaims, username: string, role: Option<string>)
    | LoginDenied(status: int, message: string)

  /** The success reply: the same role in the reply and in the signed token. */
  function LoginOkWith(u: UserRecord, role: Option<string>): LoginReply {
    LoginOk(TokenClaims(u.id, u.username, role), u.username, role)
  }

  /**
   * `login` as written, once the credential check has passed: `user` is the
   * row the username selects and `passwordMatches` the verdict of the
   * password hash check on it. The reply and the token carry `user[4]`.
   */
  function LoginAsWritten(user: Option<UserRecord>, passwordMatches: bool): (r: LoginReply)
    ensures r.LoginOk? <==> user.Some? && passwordMatches
    ensures r.LoginDenied? ==> r == LoginDenied(401, InvalidLoginMessage)
    ensures r.LoginOk? ==>
      r.username == user.value.username && r.role == user.value.gmail
      && r.claims == TokenClaims(user.value.id, r.username, r.role)
  {
    match user
    case Some(u) =>
      if passwordMatches then LoginOkWith(u, LoginRoleAsWritten(Columns(u)))
      else LoginDenied(401, InvalidLoginMessage)
    case None => LoginDenied(401, InvalidLoginMessage)
  }

  /**
   * `login` with the role column read as intended: the reply and the token
   * carry the role stored for the user.
   */
  function Login(user: Option<UserRecord>, passwordMatches: bool): (r: LoginReply)
    ensures r.LoginOk? <==> user.Some? && passwordMatches
    ensures r.LoginDenied? ==> r == LoginDenied(401, InvalidLoginMessage)
    ensures r.LoginOk? ==>
      r.username == user.value.username && r.role == user.value.role
      && r.claims == TokenClaims(user.value.id, r.username, r.role)
  {
    match user
    case Some(u) =>
      if passwordMatches then LoginOkWith(u, LoginRole(Columns(u)))
      else LoginDenied(401, InvalidLoginMessage)
    case None => LoginDenied(401, InvalidLoginMessage)
  }

  /**
   * An administrator without a gmail address who logs in with the right
   * password gets a null role from `login` as written, and `admin` from the
   * corrected reply.
   */
  lemma LoginAsWrittenLosesAdminRole()
    ensures var u := UserRecord("1", "alice", "h", Some("admin"), None, None);
      LoginAsWritten(Some(u), true).role == None && Login(Some(u), true).role == Some("admin")
  {
  }
}
