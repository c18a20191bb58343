/**
 * The client's session and contact-list state (frontend/src/App.js): the
 * token-expiry policy that runs on load and on the minute tick, forced and
 * explicit logout, token refresh, login, paged fetching with replace and
 * append, the poll and scroll guards, multi-select and the expiry banner.
 *
 * Each handler is a transition on a `Session` value; the `ContactBookApp`
 * class holds the same state in fields and its methods update them in
 * place, each proved to perform its transition. Server replies, the decoded
 * token payload and the clock are parameters. A request is taken to complete
 * before the next event; the order in which React applies queued updates
 * and the interleaving of concurrent requests are not modelled.
 */
module ClientSession {
  import opened Wrappers
  import opened Text
  import opened Contacts

  const Limit := 10
  const SessionExpiredMessage := "Your session has expired. Please log in again."
  const FetchFailedMessage := "Failed to fetch contacts"
  const LoginFailedMessage := "Login failed"
  const RefreshWindow := 300
  const AuthKeys: set<string> := {"token", "username", "role"}

  // ---------------------------------------------------------------------------
  // Values as JavaScript sees them

  /** Truthiness of a string that may be null. */
  predicate Truthy(v: Option<string>) {
    v.Some? && v.value != []
  }

  /** Truthiness of a contact id that may be null: `0` is falsy too. */
  predicate TruthyId(v: Option<int>) {
    v.Some? && v.value != 0
  }

  /** `localStorage.setItem(key, v)` stores text: a null value is stored as `"null"`. */
  function Persisted(v: Option<string>): string {
    if v.Some? then v.value else "null"
  }

  /** `localStorage.getItem(key)`. */
  function Read(storage: map<string, string>, key: string): (v: Option<string>)
    ensures v.Some? <==> key in storage
  {
    if key in storage then Some(storage[key]) else None
  }

  /** The `Authorization` header every request carries: `Bearer <token>`, or empty when signed out. */
  function AuthorizationHeader(token: Option<string>): string {
    if Truthy(token) then "Bearer " + token.value else ""
  }

  // ---------------------------------------------------------------------------
  // The state

  datatype Auth = Auth(token: Option<string>, username: Option<string>, role: Option<string>)

  const SignedOut := Auth(None, None, None)

  datatype Session = Session(
    auth: Auth,
    storage: map<string, string>,
    contacts: seq<Contact>,
    page: int,
    total: int,
    hasMore: bool,
    loading: bool,
    error: string,
    authError: string,
    editingId: Option<int>,
    showEmailModal: bool,
    autoRefreshEnabled: bool,
    filters: map<string, string>,
    selected: seq<int>)

  /** A stored key holds the field's value as text; an absent key goes with a null field. */
  predicate Mirrors(v: Option<string>, storage: map<string, string>, key: string) {
    if key in storage then storage[key] == Persisted(v) else v.None?
  }

  /** The auth fields and the three storage keys agree. */
  predicate Synced(s: Session) {
    Mirrors(s.auth.token, s.storage, "token")
    && Mirrors(s.auth.username, s.storage, "username")
    && Mirrors(s.auth.role, s.storage, "role")
  }

  predicate NoDuplicates(ids: seq<int>) {
    forall i, j :: 0 <= i < j < |ids| ==> ids[i] != ids[j]
  }

  predicate Consistent(s: Session) {
    Synced(s) && NoDuplicates(s.selected) && s.page >= 1
  }

  const InitialFilters: map<string, string> :=
    map["first_name" := "", "last_name" := "", "phone_number" := "", "email_address" := "", "address" := ""]

  /** The state the component starts in: auth read back from storage. */
  function Initial(storage: map<string, string>): (s: Session)
    ensures Consistent(s)
  {
    Session(Auth(Read(storage, "token"), Read(storage, "username"), Read(storage, "role")),
            storage, [], 1, 0, true, false, "", "", None, false, true, InitialFilters, [])
  }

  // ---------------------------------------------------------------------------
  // Logout, the 401 interceptor, refresh and login

  /** `handleLogout`: credentials gone from the state and from storage, and the list dropped. */
  function SignOut(s: Session): Session {
    s.(auth := SignedOut, storage := s.storage - AuthKeys, contacts := [], error := "")
  }

  /** `handleAutoLogout`: the same, with the expiry message. */
  function ForceLogout(s: Session): Session {
    SignOut(s).(authError := SessionExpiredMessage)
  }

  /** The response interceptor: a 401 reply forces a logout before the caller sees the error. */
  function AfterResponseError(s: Session, status: int): Session {
    if status == 401 then ForceLogout(s) else s
  }

  /** Storing new credentials in the state and in storage together. */
  function SignIn(s: Session, a: Auth): Session {
    s.(auth := a,
       storage := s.storage["token" := Persisted(a.token)]["username" := Persisted(a.username)]
                           ["role" := Persisted(a.role)])
  }

  /** Both logouts leave no credentials anywhere and drop the list, whatever the state was. */
  lemma LogoutClearsCredentials(s: Session)
    ensures var r := ForceLogout(s);
      r.auth == SignedOut && r.contacts == [] && r.error == "" && r.authError == SessionExpiredMessage
      && r.storage.Keys == s.storage.Keys - AuthKeys
      && (forall k :: k in r.storage ==> r.storage[k] == s.storage[k])
      && Synced(r)
    ensures var r := SignOut(s);
      r.auth == SignedOut && r.contacts == [] && r.error == "" && r.authError == s.authError
      && r.storage.Keys == s.storage.Keys - AuthKeys && Synced(r)
  {
  }

  /** A forced logout twice is one forced logout: the interceptor and a catch may both run it. */
  lemma ForceLogoutIdempotent(s: Session)
    ensures ForceLogout(ForceLogout(s)) == ForceLogout(s)
  {
    assert (s.storage - AuthKeys) - AuthKeys == s.storage - AuthKeys;
  }

  /** New credentials are mirrored in storage. */
  lemma SignInSynced(s: Session, a: Auth)
    ensures Synced(SignIn(s, a)) && SignIn(s, a).auth == a
    ensures forall k :: k in s.storage && k !in AuthKeys ==> k in SignIn(s, a).storage && SignIn(s, a).storage[k] == s.storage[k]
  {
  }

  /** The reply to `POST /api/refresh`: new credentials, or a failure with its status (0 for no response). */
  datatype RefreshReply =
    | Refreshed(token: Option<string>, username: Option<string>, role: Option<string>)
    | RefreshRejected(status: int)

  /** `refreshToken`: store the new credentials, or log out. */
  function AfterRefresh(s: Session, reply: RefreshReply): Session {
    match reply
    case Refreshed(t, u, r) => SignIn(s, Auth(t, u, r))
    case RefreshRejected(status) => ForceLogout(AfterResponseError(s, status))
  }

  /**
   * A refresh either replaces all three credentials together or has exactly
   * the effect of one forced logout, whatever the failure's status.
   */
  lemma RefreshAllOrNothing(s: Session, reply: RefreshReply)
    ensures reply.Refreshed? ==>
      AfterRefresh(s, reply).auth == Auth(reply.token, reply.username, reply.role) && Synced(AfterRefresh(s, reply))
    ensures reply.RefreshRejected? ==> AfterRefresh(s, reply) == ForceLogout(s)
  {
    if reply.RefreshRejected? && reply.status == 401 {
      ForceLogoutIdempotent(s);
    }
  }

  /** The error object of a failed request, as `getErrorText` looks at it. */
  datatype ErrorBody = ErrorBody(hasResponse: bool, error: Option<string>, errors: Option<seq<string>>)

  /**
   * `getErrorText`: the server's `error` text when it is non-empty, else the
   * values of its `errors` object joined by ` | ` (an empty object gives the
   * empty text), else the fallback.
   */
  function ErrorText(body: ErrorBody, fallback: string): (r: string)
    ensures body.hasResponse && Truthy(body.error) ==> r == body.error.value
    ensures body.hasResponse && !Truthy(body.error) && body.errors.Some? ==> r == Join(body.errors.value, " | ")
    ensures !body.hasResponse || (!Truthy(body.error) && body.errors.None?) ==> r == fallback
  {
    if body.hasResponse && Truthy(body.error) then body.error.value
    else if body.hasResponse && body.errors.Some? then Join(body.errors.value, " | ")
    else fallback
  }

  /** The reply to `POST /api/login`. */
  datatype LoginReply =
    | LoggedIn(token: Option<string>, username: Option<string>, role: Option<string>)
    | LoginRejected(status: int, body: ErrorBody)

  /** `handleLogin`. A rejected login with 401 also passes through the interceptor. */
  function AfterLogin(s: Session, reply: LoginReply): Session {
    var cleared := s.(authError := "");
    match reply
    case LoggedIn(t, u, r) => SignIn(cleared, Auth(t, u, r)).(error := "")
    case LoginRejected(status, body) =>
      AfterResponseError(cleared, status).(authError := ErrorText(body, LoginFailedMessage))
  }

  /** A wrong password (401) clears any stored credentials and shows the server's reason. */
  lemma RejectedLoginShowsReason(s: Session, reason: string)
    requires reason != []
    ensures var r := AfterLogin(s, LoginRejected(401, ErrorBody(true, Some(reason), None)));
      r.auth == SignedOut && r.authError == reason && Synced(r)
  {
  }

  // ---------------------------------------------------------------------------
  // Token expiry

  /** The payload segment of the token: unreadable, or its claims with the `exp` claim if any. */
  datatype Payload = Malformed | Claims(exp: Option<int>)

  datatype ExpiryAction = Logout | Refresh | Keep

  /**
   * The rule both the load-time check and the minute tick apply to
   * `exp - now`: expired logs out, under five minutes refreshes, otherwise
   * nothing. A payload that cannot be read logs out; a missing `exp` makes
   * the difference NaN, and neither comparison holds.
   */
  function Classify(p: Payload, now: int): (a: ExpiryAction)
    ensures p.Malformed? ==> a == Logout
    ensures p.Claims? && p.exp.None? ==> a == Keep
    ensures p.Claims? && p.exp.Some? ==>
      (a == Logout <==> p.exp.value - now < 0)
      && (a == Refresh <==> 0 <= p.exp.value - now < RefreshWindow)
      && (a == Keep <==> p.exp.value - now >= RefreshWindow)
  {
    match p
    case Malformed => Logout
    case Claims(exp) =>
      if exp.None? then Keep
      else if exp.value - now < 0 then Logout
      else if exp.value - now < RefreshWindow then Refresh
      else Keep
  }

  /** `checkTokenExpiration`: the stored token's payload decides; no stored token, no change. */
  function AfterExpiryCheck(s: Session, decode: string -> Payload, now: int, reply: RefreshReply): Session {
    var token := Read(s.storage, "token");
    if !Truthy(token) then s
    else
      match Classify(decode(token.value), now)
      case Logout => ForceLogout(s)
      case Refresh => AfterRefresh(s, reply)
      case Keep => s
  }

  /** The minute tick: the same check, while the state holds a token. */
  function AfterTick(s: Session, decode: string -> Payload, now: int, reply: RefreshReply): Session {
    if Truthy(s.auth.token) then AfterExpiryCheck(s, decode, now, reply) else s
  }

  /** An unreadable or expired token ends the session, on load or on a tick. */
  lemma BadTokenLogsOut(s: Session, decode: string -> Payload, now: int, reply: RefreshReply)
    requires Consistent(s) && Truthy(s.auth.token)
    requires var p := decode(s.auth.token.value); p.Malformed? || (p.exp.Some? && p.exp.value < now)
    ensures AfterExpiryCheck(s, decode, now, reply) == ForceLogout(s)
    ensures AfterTick(s, decode, now, reply) == ForceLogout(s)
  {
    assert Read(s.storage, "token") == s.auth.token;
  }

  /** The expiry banner: whole minutes left, and whether they are ten or fewer. */
  datatype Banner = Banner(minutes: int, urgent: bool)

  /**
   * `Math.floor((exp - now) / 60)` minutes, shown when between 1 and 30 and
   * urgent when at most 10. Dafny's `/` by a positive divisor rounds down.
   */
  function ExpiryBanner(p: Payload, now: int): (b: Option<Banner>)
    ensures b.Some? ==> 0 < b.value.minutes <= 30 && (b.value.urgent <==> b.value.minutes <= 10)
    ensures b.Some? ==>
      p.Claims? && p.exp.Some? && 60 * b.value.minutes <= p.exp.value - now < 60 * (b.value.minutes + 1)
    ensures p.Malformed? || p.exp.None? ==> b.None?
  {
    if p.Malformed? || p.exp.None? then None
    else
      var minutes := (p.exp.value - now) / 60;
      if 0 < minutes <= 30 then Some(Banner(minutes, minutes <= 10)) else None
  }

  /** In seconds: the banner shows from 30 minutes 59 seconds down to one minute, urgent below 11 minutes. */
  lemma BannerInSeconds(exp: int, now: int)
    ensures ExpiryBanner(Claims(Some(exp)), now).Some? <==> 60 <= exp - now < 1860
    ensures ExpiryBanner(Claims(Some(exp)), now).Some? ==>
      (ExpiryBanner(Claims(Some(exp)), now).value.urgent <==> exp - now < 660)
  {
    var t := exp - now;
    assert t / 60 >= 1 <==> t >= 60;
    assert t / 60 <= 30 <==> t < 1860;
    assert t / 60 <= 10 <==> t < 660;
  }

  /** While a refresh is due the banner, when shown, is urgent; in the last minute it is not shown. */
  lemma RefreshWindowBanner(exp: int, now: int)
    requires Classify(Claims(Some(exp)), now) == Refresh
    ensures ExpiryBanner(Claims(Some(exp)), now).Some? ==> ExpiryBanner(Claims(Some(exp)), now).value.urgent
    ensures exp - now < 60 ==> ExpiryBanner(Claims(Some(exp)), now).None?
  {
    BannerInSeconds(exp, now);
  }

  // ---------------------------------------------------------------------------
  // Fetching, polling and scrolling

  /** `setHasMore(pageNum * limit < total)`. */
  predicate HasMore(pageNum: int, total: int) {
    pageNum * Limit < total
  }

  /** The reply to `GET /api/contacts`. */
  datatype FetchReply = Fetched(contacts: seq<Contact>, total: int) | FetchRejected(status: int)

  /** `fetchContacts`: without a token nothing happens. */
  function AfterFetch(s: Session, pageNum: int, append: bool, reply: FetchReply): Session {
    if !Truthy(s.auth.token) then s
    else
      match reply
      case Fetched(page, total) => ShowPage(s, pageNum, append, page, total)
      case FetchRejected(status) => ShowFailure(s, status)
  }

  /** A received page: appended or in place of the list, with the new total. */
  function ShowPage(s: Session, pageNum: int, append: bool, page: seq<Contact>, total: int): Session {
    s.(contacts := if append then s.contacts + page else page, total := total,
       hasMore := HasMore(pageNum, total), error := "", loading := false)
  }

  /** A failed fetch: the interceptor, then the error message. */
  function ShowFailure(s: Session, status: int): Session {
    AfterResponseError(s, status).(error := FetchFailedMessage, loading := false)
  }

  /**
   * A fetch appends the page or replaces the list; a failure keeps the list
   * unless it was a 401, which logs out; `loading` ends false either way.
   */
  lemma FetchEffect(s: Session, pageNum: int, append: bool, reply: FetchReply)
    requires Truthy(s.auth.token)
    ensures var r := AfterFetch(s, pageNum, append, reply);
      !r.loading
      && (reply.Fetched? ==>
            r.contacts == (if append then s.contacts + reply.contacts else reply.contacts)
            && |r.contacts| == (if append then |s.contacts| else 0) + |reply.contacts|
            && r.hasMore == (pageNum * Limit < reply.total) && r.error == "" && r.auth == s.auth)
      && (reply.FetchRejected? ==>
            r.error == FetchFailedMessage
            && (reply.status != 401 ==> r.contacts == s.contacts && r.auth == s.auth)
            && (reply.status == 401 ==> r == ForceLogout(s).(error := FetchFailedMessage, loading := false)))
  {
  }

  /** An appended page keeps everything already on screen as a prefix. */
  lemma AppendKeepsPrefix(s: Session, pageNum: int, page: seq<Contact>, total: int)
    requires Truthy(s.auth.token)
    ensures var r := AfterFetch(s, pageNum, true, Fetched(page, total));
      |s.contacts| <= |r.contacts| && r.contacts[..|s.contacts|] == s.contacts
  {
  }

  /** The poll fires when signed in with auto-refresh on, and nothing is loading, being edited or e-mailed. */
  predicate PollGuard(s: Session) {
    Truthy(s.auth.token) && s.autoRefreshEnabled
    && !s.loading && !TruthyId(s.editingId) && !s.showEmailModal
  }

  /** A replace fetch of page 1, then back to page 1: manual refresh, the poll and every list-control change. */
  function AfterReload(s: Session, reply: FetchReply): Session {
    AfterFetch(s, 1, false, reply).(page := 1)
  }

  /** The five-second poll. */
  function AfterPoll(s: Session, reply: FetchReply): Session {
    if PollGuard(s) then AfterReload(s, reply) else s
  }

  /** The scroll listener is installed when signed in, idle and with more to load. */
  predicate ScrollGuard(s: Session) {
    Truthy(s.auth.token) && !s.loading && s.hasMore
  }

  /** Scrolling near the bottom fetches and appends the next page. */
  function AfterScroll(s: Session, nearBottom: bool, reply: FetchReply): Session {
    if ScrollGuard(s) && nearBottom then AfterFetch(s, s.page + 1, true, reply).(page := s.page + 1)
    else s
  }

  /** A poll changes the state only under its guard, and then lands on page 1 with the list replaced. */
  lemma PollOnlyWhenIdle(s: Session, page: seq<Contact>, total: int)
    ensures !PollGuard(s) ==> AfterPoll(s, Fetched(page, total)) == s
    ensures PollGuard(s) ==>
      var r := AfterPoll(s, Fetched(page, total));
      r.page == 1 && r.contacts == page && r.hasMore == (Limit < total)
  {
  }

  /** A scroll changes the state only under its guard, and then moves one page on, appending. */
  lemma ScrollOnlyWithMore(s: Session, nearBottom: bool, page: seq<Contact>, total: int)
    ensures !(ScrollGuard(s) && nearBottom) ==> AfterScroll(s, nearBottom, Fetched(page, total)) == s
    ensures ScrollGuard(s) && nearBottom ==>
      var r := AfterScroll(s, nearBottom, Fetched(page, total));
      r.page == s.page + 1 && r.contacts == s.contacts + page
      && r.hasMore == ((s.page + 1) * Limit < total)
  {
  }

  /** `handleFilterChange`: set one filter and reload page 1. */
  function AfterFilterChange(s: Session, name: string, value: string, reply: FetchReply): Session {
    AfterReload(s.(filters := s.filters[name := value]), reply)
  }

  // ---------------------------------------------------------------------------
  // Multi-select

  /** `handleContactSelect`: remove the id if present, append it otherwise. */
  function Toggle(ids: seq<int>, id: int): (r: seq<int>)
    ensures id in ids ==> id !in r && forall x :: x in r <==> x in ids && x != id
    ensures id in ids ==> multiset(r) == multiset(ids)[id := 0] && r == Remove(ids, id)
    ensures id !in ids ==> r == ids + [id]
  {
    if id in ids then Remove(ids, id) else ids + [id]
  }

  /** `ids.filter(x => x !== id)`. */
  function Remove(ids: seq<int>, id: int): (r: seq<int>)
    ensures forall x :: x in r <==> x in ids && x != id
    ensures multiset(r) == multiset(ids)[id := 0]
    ensures |r| <= |ids|
  {
    if ids == [] then []
    else
      assert ids == [ids[0]] + ids[1..];
      (if ids[0] == id then [] else [ids[0]]) + Remove(ids[1..], id)
  }

  /**
   * Removal works element by element: it distributes over concatenation, so
   * with `RemoveSingleton` the other ids stay in their order.
   */
  lemma {:induction false} RemoveConcat(a: seq<int>, b: seq<int>, id: int)
    ensures Remove(a + b, id) == Remove(a, id) + Remove(b, id)
  {
    if a == [] {
      assert a + b == b;
    } else {
      var head := if a[0] == id then [] else [a[0]];
      var ab := a + b;
      assert ab[0] == a[0] && ab[1..] == a[1..] + b;
      RemoveConcat(a[1..], b, id);
      calc {
        Remove(ab, id);
        head + Remove(a[1..] + b, id);
        head + (Remove(a[1..], id) + Remove(b, id));
        (head + Remove(a[1..], id)) + Remove(b, id);
      }
    }
  }

  /** A single id is dropped when it is the removed one and kept otherwise. */
  lemma RemoveSingleton(x: int, id: int)
    ensures Remove([x], id) == if x == id then [] else [x]
  {
  }

  /** Removing from a list without duplicates keeps it without duplicates. */
  lemma {:induction false} RemoveNoDuplicates(ids: seq<int>, id: int)
    requires NoDuplicates(ids)
    ensures NoDuplicates(Remove(ids, id))
  {
    if ids != [] {
      RemoveNoDuplicates(ids[1..], id);
      var rest := Remove(ids[1..], id);
      assert ids[0] !in ids[1..];
      assert ids[0] !in rest;
    }
  }

  /** Removing the last element of a list without duplicates gives back the rest. */
  lemma {:induction false} RemoveLast(ids: seq<int>, id: int)
    requires id !in ids
    ensures Remove(ids + [id], id) == ids
  {
    if ids == [] {
      assert [id][1..] == [];
    } else {
      assert (ids + [id])[1..] == ids[1..] + [id];
      RemoveLast(ids[1..], id);
    }
  }

  /** Selection never holds an id twice. */
  lemma ToggleNoDuplicates(ids: seq<int>, id: int)
    requires NoDuplicates(ids)
    ensures NoDuplicates(Toggle(ids, id))
  {
    if id in ids {
      RemoveNoDuplicates(ids, id);
    }
  }

  /**
   * Toggling the same id twice restores a selection that did not hold it; a
   * selection that held it gets it back at the end, with the same members.
   */
  lemma ToggleTwice(ids: seq<int>, id: int)
    requires NoDuplicates(ids)
    ensures id !in ids ==> Toggle(Toggle(ids, id), id) == ids
    ensures id in ids ==> Toggle(Toggle(ids, id), id) == Remove(ids, id) + [id]
    ensures forall x :: x in Toggle(Toggle(ids, id), id) <==> x in ids
  {
    if id !in ids {
      RemoveLast(ids, id);
    }
  }

  /** Toggling a selected id twice moves it to the end of the selection. */
  lemma ToggleTwiceMovesToEnd()
    ensures Toggle(Toggle([1, 2], 1), 1) == [2, 1]
  {
    assert Remove([1, 2], 1) == [2] by {
      assert [1, 2][1..] == [2];
      assert Remove([2], 1) == [2] by {
        assert [2][1..] == [];
      }
    }
  }

  /** Logging in or out keeps storage and state in step. */
  lemma CredentialsKeepConsistent(s: Session, a: Auth, status: int)
    requires Consistent(s)
    ensures Consistent(SignOut(s)) && Consistent(ForceLogout(s)) && Consistent(SignIn(s, a))
    ensures Consistent(AfterResponseError(s, status))
  {
    LogoutClearsCredentials(s);
    SignInSynced(s, a);
  }

  /** Refresh, login and the expiry checks keep the state consistent. */
  lemma SessionEventsKeepConsistent(s: Session, reply: RefreshReply, login: LoginReply,
                                    decode: string -> Payload, now: int)
    requires Consistent(s)
    ensures Consistent(AfterRefresh(s, reply)) && Consistent(AfterLogin(s, login))
    ensures Consistent(AfterExpiryCheck(s, decode, now, reply)) && Consistent(AfterTick(s, decode, now, reply))
  {
    CredentialsKeepConsistent(s, Auth(None, None, None), 0);
    match reply {
      case Refreshed(t, u, r) => CredentialsKeepConsistent(s, Auth(t, u, r), 0);
      case RefreshRejected(status) =>
        CredentialsKeepConsistent(s, SignedOut, status);
        CredentialsKeepConsistent(AfterResponseError(s, status), SignedOut, 0);
    }
    var cleared := s.(authError := "");
    match login {
      case LoggedIn(t, u, r) => CredentialsKeepConsistent(cleared, Auth(t, u, r), 0);
      case LoginRejected(status, _) => CredentialsKeepConsistent(cleared, SignedOut, status);
    }
  }

  /** A fetch keeps the state consistent. */
  lemma FetchKeepsConsistent(s: Session, pageNum: int, append: bool, fetch: FetchReply)
    requires Consistent(s)
    ensures Consistent(AfterFetch(s, pageNum, append, fetch))
  {
    if fetch.FetchRejected? {
      CredentialsKeepConsistent(s, SignedOut, fetch.status);
    }
  }

  /** Reloading, polling, scrolling and filtering keep the state consistent. */
  lemma ListEventsKeepConsistent(s: Session, fetch: FetchReply, nearBottom: bool, name: string, value: string)
    requires Consistent(s)
    ensures Consistent(AfterReload(s, fetch)) && Consistent(AfterPoll(s, fetch))
    ensures Consistent(AfterScroll(s, nearBottom, fetch))
    ensures Consistent(AfterFilterChange(s, name, value, fetch))
  {
    FetchKeepsConsistent(s, 1, false, fetch);
    FetchKeepsConsistent(s, s.page + 1, true, fetch);
    FetchKeepsConsistent(s.(filters := s.filters[name := value]), 1, false, fetch);
  }

  // ---------------------------------------------------------------------------
  // The component's state, updated in place

  class ContactBookApp {
    var token: Option<string>
    var username: Option<string>
    var role: Option<string>
    var storage: map<string, string>
    var contacts: seq<Contact>
    var page: int
    var total: int
    var hasMore: bool
    var loading: bool
    var error: string
    var authError: string
    var editingId: Option<int>
    var showEmailModal: bool
    var autoRefreshEnabled: bool
    var filters: map<string, string>
    var selected: seq<int>

    function State(): Session
      reads this
    {
      Session(Auth(token, username, role), storage, contacts, page, total, hasMore, loading, error,
              authError, editingId, showEmailModal, autoRefreshEnabled, filters, selected)
    }

    predicate Valid()
      reads this
    {
      Consistent(State())
    }

    /** The component's first render, with whatever local storage holds. */
    constructor (saved: map<string, string>)
      ensures State() == Initial(saved) && Valid()
    {
      token := Read(saved, "token");
      username := Read(saved, "username");
      role := Read(saved, "role");
      storage := saved;
      contacts := [];
      page := 1;
      total := 0;
      hasMore := true;
      loading := false;
      error := "";
      authError := "";
      editingId := None;
      showEmailModal := false;
      autoRefreshEnabled := true;
      filters := InitialFilters;
      selected := [];
    }

    method HandleAutoLogout()
      requires Valid()
      modifies this
      ensures State() == ForceLogout(old(State())) && Valid()
    {
      CredentialsKeepConsistent(State(), SignedOut, 0);
      HandleLogout();
      authError := SessionExpiredMessage;
    }

    method HandleLogout()
      requires Valid()
      modifies this
      ensures State() == SignOut(old(State())) && Valid()
    {
      CredentialsKeepConsistent(State(), SignedOut, 0);
      storage := storage - AuthKeys;
      token, username, role := None, None, None;
      contacts := [];
      error := "";
    }

    /** The axios response interceptor. */
    method OnResponseError(status: int)
      requires Valid()
      modifies this
      ensures State() == AfterResponseError(old(State()), status) && Valid()
    {
      if status == 401 {
        HandleAutoLogout();
      }
    }

    method StoreCredentials(t: Option<string>, u: Option<string>, r: Option<string>)
      requires Valid()
      modifies this
      ensures State() == SignIn(old(State()), Auth(t, u, r)) && Valid()
    {
      CredentialsKeepConsistent(State(), Auth(t, u, r), 0);
      token, username, role := t, u, r;
      storage := storage["token" := Persisted(t)];
      storage := storage["username" := Persisted(u)];
      storage := storage["role" := Persisted(r)];
    }

    /** `refreshToken`: reports whether new credentials arrived. */
    method RefreshToken(reply: RefreshReply) returns (ok: bool)
      requires Valid()
      modifies this
      ensures State() == AfterRefresh(old(State()), reply) && Valid()
      ensures ok <==> reply.Refreshed?
    {
      SessionEventsKeepConsistent(State(), reply, LoginRejected(0, ErrorBody(false, None, None)), _ => Malformed, 0);
      match reply {
        case Refreshed(t, u, r) =>
          StoreCredentials(t, u, r);
          ok := true;
        case RefreshRejected(status) =>
          OnResponseError(status);
          HandleAutoLogout();
          ok := false;
      }
    }

    /** `checkTokenExpiration`, run on load; the refresh it may start is answered by `reply`. */
    method CheckTokenExpiration(decode: string -> Payload, now: int, reply: RefreshReply)
      requires Valid()
      modifies this
      ensures State() == AfterExpiryCheck(old(State()), decode, now, reply) && Valid()
    {
      SessionEventsKeepConsistent(State(), reply, LoginRejected(0, ErrorBody(false, None, None)), decode, now);
      var stored := Read(storage, "token");
      if Truthy(stored) {
        var action := Classify(decode(stored.value), now);
        match action {
          case Logout => HandleAutoLogout();
          case Refresh => var _ := RefreshToken(reply);
          case Keep =>
        }
      }
    }

    /** One tick of the minute interval, which exists only while the state holds a token. */
    method Tick(decode: string -> Payload, now: int, reply: RefreshReply)
      requires Valid()
      modifies this
      ensures State() == AfterTick(old(State()), decode, now, reply) && Valid()
    {
      if Truthy(token) {
        CheckTokenExpiration(decode, now, reply);
      }
    }

    method HandleLogin(reply: LoginReply)
      requires Valid()
      modifies this
      ensures State() == AfterLogin(old(State()), reply) && Valid()
    {
      SessionEventsKeepConsistent(State(), RefreshRejected(0), reply, _ => Malformed, 0);
      authError := "";
      match reply {
        case LoggedIn(t, u, r) =>
          StoreCredentials(t, u, r);
          error := "";
        case LoginRejected(status, body) =>
          OnResponseError(status);
          authError := ErrorText(body, LoginFailedMessage);
      }
    }

    /** `fetchContacts` for page `pageNum`, appending or replacing. */
    method FetchContacts(pageNum: int, append: bool, reply: FetchReply)
      requires Valid()
      modifies this
      ensures State() == AfterFetch(old(State()), pageNum, append, reply) && Valid()
    {
      FetchKeepsConsistent(State(), pageNum, append, reply);
      if !Truthy(token) {
        return;
      }
      loading := true;
      match reply {
        case Fetched(received, count) => ReceivePage(pageNum, append, received, count);
        case FetchRejected(status) => ReceiveFailure(status);
      }
    }

    method ReceivePage(pageNum: int, append: bool, received: seq<Contact>, count: int)
      modifies this
      ensures State() == ShowPage(old(State()), pageNum, append, received, count)
    {
      if append {
        contacts := contacts + received;
      } else {
        contacts := received;
      }
      total := count;
      hasMore := pageNum * Limit < count;
      error := "";
      loading := false;
    }

    method ReceiveFailure(status: int)
      requires Valid()
      modifies this
      ensures State() == ShowFailure(old(State()), status)
    {
      OnResponseError(status);
      error := FetchFailedMessage;
      loading := false;
    }

    /** `handleManualRefresh`, and the reload the list controls trigger. */
    method Reload(reply: FetchReply)
      requires Valid()
      modifies this
      ensures State() == AfterReload(old(State()), reply) && Valid()
    {
      FetchKeepsConsistent(State(), 1, false, reply);
      FetchContacts(1, false, reply);
      page := 1;
    }

    /** One tick of the five-second poll. */
    method Poll(reply: FetchReply)
      requires Valid()
      modifies this
      ensures State() == AfterPoll(old(State()), reply) && Valid()
    {
      ListEventsKeepConsistent(State(), reply, false, "", "");
      if !loading && !TruthyId(editingId) && !showEmailModal && Truthy(token) && autoRefreshEnabled {
        Reload(reply);
      }
    }

    /** A scroll event; `nearBottom` is the window-position test. */
    method Scroll(nearBottom: bool, reply: FetchReply)
      requires Valid()
      modifies this
      ensures State() == AfterScroll(old(State()), nearBottom, reply) && Valid()
    {
      ListEventsKeepConsistent(State(), reply, nearBottom, "", "");
      if Truthy(token) && !loading && hasMore && nearBottom {
        var next := page + 1;
        FetchContacts(next, true, reply);
        page := next;
      }
    }

    method HandleFilterChange(name: string, value: string, reply: FetchReply)
      requires Valid()
      modifies this
      ensures State() == AfterFilterChange(old(State()), name, value, reply) && Valid()
    {
      ListEventsKeepConsistent(State(), reply, false, name, value);
      filters := filters[name := value];
      Reload(reply);
    }

    method HandleContactSelect(id: int)
      requires Valid()
      modifies this
      ensures State() == old(State()).(selected := Toggle(old(selected), id)) && Valid()
    {
      ToggleNoDuplicates(selected, id);
      selected := Toggle(selected, id);
    }
  }
}
