/** The authenticated API client of src/backend/ApiClient.ts: which bearer token a request
    carries, how the two tokens are kept in memory and in browser storage, and the hook that
    observes HTTP 401 responses. */
module ApiClient {
  import opened Wrappers

  /** A token issued by the backend; `claims` stands for the other fields the server sends. */
  datatype TokenResult = TokenResult(token: string, claims: map<string, string>)

  type Headers = map<string, string>

  /** The part of a fetch `RequestInit` this core touches: the headers (None when the caller
      gave none) and every other request option, abstracted as named values. */
  datatype RequestInit = RequestInit(headers: Option<Headers>, options: map<string, string>)

  /** What the underlying `fetch` delivered: a response with its status, or a network failure. */
  datatype FetchResult = Response(status: int) | NetworkError

  /** What a call into the generated base client gave back: a value, or a rejected promise. */
  datatype BaseCall<T> = Resolved(value: T) | Rejected

  /** Why an operation of the facade failed. */
  datatype ApiError =
    | TokenNotFound  // the login answer held no token ("User token not found!")
    | Transport      // the base call itself was rejected; the error propagates unchanged

  const DeviceAuthKey: string := "attend-me:device-auth"
  const UserAuthKey: string := "attend-me:user-auth"
  const AuthorizationHeader: string := "Authorization"

  const LoginPrefix: string := "/user/login"
  const DeviceRegisterPrefix: string := "/user/device/register"
  const TicketGetPrefix: string := "/user/attendance/ticket/get"
  const AttendanceRegisterPrefix: string := "/course/session/attendance/register"
  const TokenGetPrefix: string := "/user/device/register/token/get"

  /** The path the base client's device registration request goes to. */
  const DeviceRegisterPath: string := "/user/device/register"

  /** JavaScript's `String.prototype.startsWith`. */
  predicate StartsWith(s: string, prefix: string) {
    prefix <= s
  }

  /** Paths a user token may be sent to: all but the login endpoint. */
  predicate IsUserEndpoint(path: string) {
    !StartsWith(path, LoginPrefix)
  }

  /** Paths the device token is sent to, with the token-retrieval carve-out. */
  predicate IsDeviceEndpoint(path: string) {
    && (|| StartsWith(path, DeviceRegisterPrefix)
        || StartsWith(path, TicketGetPrefix)
        || StartsWith(path, AttendanceRegisterPrefix))
    && !StartsWith(path, TokenGetPrefix)
  }

  /** The token `fetchWrapper` attaches to a request for `path`, if any:
      the device token first, the user token as the fallback. */
  function SelectToken(path: string, device: Option<TokenResult>, user: Option<TokenResult>): (r: Option<string>)
    ensures device.Some? && IsDeviceEndpoint(path) ==> r == Some(device.value.token)
    ensures !(device.Some? && IsDeviceEndpoint(path)) && user.Some? && IsUserEndpoint(path) ==> r == Some(user.value.token)
    ensures r.None? <==> (device.None? || !IsDeviceEndpoint(path)) && (user.None? || !IsUserEndpoint(path))
    ensures r.Some? ==> IsUserEndpoint(path)
  {
    DeviceEndpointsAreUserEndpoints(path);
    if device.Some? && IsDeviceEndpoint(path) then Some(device.value.token)
    else if user.Some? && IsUserEndpoint(path) then Some(user.value.token)
    else None
  }

  function BearerValue(token: string): string {
    "Bearer " + token
  }

  /** `{ ...init }`: a missing init spreads to an object with no fields. */
  function CopyInit(init: Option<RequestInit>): RequestInit {
    match init
    case None => RequestInit(None, map[])
    case Some(i) => i
  }

  /** `{ ...opts.headers }`: missing headers spread to no entries. */
  function HeadersOf(opts: RequestInit): Headers {
    match opts.headers
    case None => map[]
    case Some(h) => h
  }

  /** The value of header `name` in `opts`, if it is set. */
  function HeaderValue(opts: RequestInit, name: string): Option<string> {
    if opts.headers.Some? && name in opts.headers.value then Some(opts.headers.value[name]) else None
  }

  /** The options `fetchWrapper` hands to `fetch`: a copy of `init` whose Authorization header
      carries the selected token. */
  function PrepareRequest(path: string, device: Option<TokenResult>, user: Option<TokenResult>,
                          init: Option<RequestInit>): (opts: RequestInit)
    ensures opts.options == CopyInit(init).options
    ensures forall name :: name != AuthorizationHeader ==> HeaderValue(opts, name) == HeaderValue(CopyInit(init), name)
    ensures SelectToken(path, device, user).None? ==> opts == CopyInit(init)
    ensures SelectToken(path, device, user).Some? ==>
              HeaderValue(opts, AuthorizationHeader) == Some(BearerValue(SelectToken(path, device, user).value))
  {
    var base := CopyInit(init);
    match SelectToken(path, device, user)
    case None => base
    case Some(token) => base.(headers := Some(HeadersOf(base)[AuthorizationHeader := BearerValue(token)]))
  }

  /** Whether a fetch outcome is a response the unauthorized hook reacts to. */
  predicate IsUnauthorized(response: FetchResult) {
    response.Response? && response.status == 401
  }

  /** Two prefixes that differ at position `i` cannot both start `s`. */
  lemma PrefixesExclude(s: string, p: string, q: string, i: nat)
    requires i < |p| && i < |q| && p[i] != q[i]
    requires StartsWith(s, p)
    ensures !StartsWith(s, q)
  {
    assert s[i] == p[i];
  }

  /** No device-scoped prefix overlaps the login prefix. */
  lemma DeviceEndpointsAreUserEndpoints(path: string)
    ensures IsDeviceEndpoint(path) ==> IsUserEndpoint(path)
  {
    if StartsWith(path, DeviceRegisterPrefix) {
      PrefixesExclude(path, DeviceRegisterPrefix, LoginPrefix, 6);
    }
    if StartsWith(path, TicketGetPrefix) {
      PrefixesExclude(path, TicketGetPrefix, LoginPrefix, 6);
    }
    if StartsWith(path, AttendanceRegisterPrefix) {
      PrefixesExclude(path, AttendanceRegisterPrefix, LoginPrefix, 1);
    }
  }

  /** Every path under /user/login goes out without an Authorization header, whatever tokens
      are held and whatever headers the caller gave. */
  lemma LoginRequestsCarryNoToken(path: string, device: Option<TokenResult>, user: Option<TokenResult>,
                                  init: Option<RequestInit>)
    requires StartsWith(path, LoginPrefix)
    ensures SelectToken(path, device, user) == None
    ensures PrepareRequest(path, device, user, init) == CopyInit(init)
  {
    DeviceEndpointsAreUserEndpoints(path);
  }

  /** A held device token wins on a device-scoped path, even when a user token is held too. */
  lemma DeviceTokenTakesPriority(path: string, device: TokenResult, user: Option<TokenResult>,
                                 init: Option<RequestInit>)
    requires IsDeviceEndpoint(path)
    ensures HeaderValue(PrepareRequest(path, Some(device), user, init), AuthorizationHeader)
            == Some(BearerValue(device.token))
  {
  }

  /** The token-retrieval endpoint (and everything below it) carries the user token, not the
      device token, when both are held. */
  lemma TokenGetUsesUserToken(suffix: string, device: TokenResult, user: TokenResult, init: Option<RequestInit>)
    ensures !IsDeviceEndpoint(TokenGetPrefix + suffix)
    ensures SelectToken(TokenGetPrefix + suffix, Some(device), Some(user)) == Some(user.token)
    ensures HeaderValue(PrepareRequest(TokenGetPrefix + suffix, Some(device), Some(user), init), AuthorizationHeader)
            == Some(BearerValue(user.token))
  {
    var path := TokenGetPrefix + suffix;
    assert StartsWith(path, TokenGetPrefix);
    PrefixesExclude(path, TokenGetPrefix, LoginPrefix, 6);
  }

  /** The device-scoped set exactly: the three prefixes, minus the carve-out. */
  lemma DeviceEndpointCases()
    ensures IsDeviceEndpoint(DeviceRegisterPath)
    ensures IsDeviceEndpoint(TicketGetPrefix)
    ensures IsDeviceEndpoint(AttendanceRegisterPrefix)
    ensures !IsDeviceEndpoint(TokenGetPrefix)
    ensures !IsDeviceEndpoint(LoginPrefix)
  {
    assert !StartsWith(DeviceRegisterPath, TokenGetPrefix);
    PrefixesExclude(TicketGetPrefix, TicketGetPrefix, TokenGetPrefix, 6);
    PrefixesExclude(AttendanceRegisterPrefix, AttendanceRegisterPrefix, TokenGetPrefix, 1);
    assert StartsWith(TokenGetPrefix, TokenGetPrefix);
    PrefixesExclude(LoginPrefix, LoginPrefix, DeviceRegisterPrefix, 6);
    PrefixesExclude(LoginPrefix, LoginPrefix, TicketGetPrefix, 6);
    PrefixesExclude(LoginPrefix, LoginPrefix, AttendanceRegisterPrefix, 1);
  }

  // ---------------------------------------------------------------------------------------
  // An independent reference: the same selection as an ordered table of prefix rules,
  // first match wins.

  datatype Scope =
    | DeviceFirst   // device token if held, else the user token
    | UserOnly      // the user token if held
    | NoCredential  // never a token

  datatype Rule = Rule(prefix: string, scope: Scope)

  const RouteRules: seq<Rule> := [
    Rule(TokenGetPrefix, UserOnly),
    Rule(DeviceRegisterPrefix, DeviceFirst),
    Rule(TicketGetPrefix, DeviceFirst),
    Rule(AttendanceRegisterPrefix, DeviceFirst),
    Rule(LoginPrefix, NoCredential)
  ]

  /** The scope of the first rule whose prefix starts `path`; UserOnly when none does. */
  function Classify(rules: seq<Rule>, path: string): Scope {
    if rules == [] then UserOnly
    else if StartsWith(path, rules[0].prefix) then rules[0].scope
    else Classify(rules[1..], path)
  }

  function TableToken(path: string, device: Option<TokenResult>, user: Option<TokenResult>): Option<string> {
    match Classify(RouteRules, path)
    case DeviceFirst =>
      if device.Some? then Some(device.value.token)
      else if user.Some? then Some(user.value.token)
      else None
    case UserOnly => if user.Some? then Some(user.value.token) else None
    case NoCredential => None
  }

  /** The prefix checks of `fetchWrapper` select the same token as the rule table. */
  lemma SelectTokenMatchesRuleTable(path: string, device: Option<TokenResult>, user: Option<TokenResult>)
    ensures SelectToken(path, device, user) == TableToken(path, device, user)
  {
    var r0 := RouteRules;
    var r1, r2, r3, r4 := r0[1..], r0[2..], r0[3..], r0[4..];
    assert r0[0] == Rule(TokenGetPrefix, UserOnly) && r1[0] == Rule(DeviceRegisterPrefix, DeviceFirst);
    assert r2[0] == Rule(TicketGetPrefix, DeviceFirst) && r3[0] == Rule(AttendanceRegisterPrefix, DeviceFirst);
    assert r4 == [Rule(LoginPrefix, NoCredential)] && r1[1..] == r2 && r2[1..] == r3 && r3[1..] == r4;
    DeviceEndpointsAreUserEndpoints(path);
    if StartsWith(path, TokenGetPrefix) {
      PrefixesExclude(path, TokenGetPrefix, LoginPrefix, 6);
    } else if StartsWith(path, DeviceRegisterPrefix) {
      assert Classify(r0, path) == Classify(r1, path) == DeviceFirst;
    } else if StartsWith(path, TicketGetPrefix) {
      assert Classify(r0, path) == Classify(r1, path) == Classify(r2, path) == DeviceFirst;
    } else if StartsWith(path, AttendanceRegisterPrefix) {
      assert Classify(r0, path) == Classify(r2, path) == Classify(r3, path) == DeviceFirst;
    } else {
      assert Classify(r0, path) == Classify(r2, path) == Classify(r4, path);
      assert r4[1..] == [];
      if StartsWith(path, LoginPrefix) {
        assert Classify(r4, path) == NoCredential;
      } else {
        assert Classify(r4, path) == Classify([], path) == UserOnly;
      }
    }
  }

  // ---------------------------------------------------------------------------------------
  // Browser storage and the client object.

  function Lookup(items: map<string, TokenResult>, key: string): Option<TokenResult> {
    if key in items then Some(items[key]) else None
  }

  /** A Web Storage area (`window.localStorage` or `window.sessionStorage`); stored text is
      abstracted to the token it serialises. */
  class Storage {
    var items: map<string, TokenResult>

    constructor (initial: map<string, TokenResult>)
      ensures items == initial
    {
      items := initial;
    }

    method GetItem(key: string) returns (r: Option<TokenResult>)
      ensures r.Some? <==> key in items
      ensures r.Some? ==> r.value == items[key]
    {
      r := if key in items then Some(items[key]) else None;
    }

    method SetItem(key: string, value: TokenResult)
      modifies this
      ensures items == old(items)[key := value]
    {
      items := items[key := value];
    }

    method RemoveItem(key: string)
      modifies this
      ensures items == old(items) - {key}
    {
      items := items - {key};
    }
  }

  /** The `Api` facade over the generated base client. */
  class Api {
    const baseUrl: string
    const localStorage: Storage
    const sessionStorage: Storage
    var userTokenResult: Option<TokenResult>
    var deviceTokenResult: Option<TokenResult>
    /** Whether an `onUnauthorized` callback is registered. */
    var onUnauthorized: bool
    /** The URLs the registered callback has been called with, oldest first. */
    var unauthorizedCalls: seq<string>

    ghost predicate Valid()
      reads this
    {
      localStorage != sessionStorage
    }

    /** The tokens in memory are exactly the persisted ones. */
    ghost predicate Mirrored()
      reads this, localStorage, sessionStorage
    {
      && deviceTokenResult == Lookup(localStorage.items, DeviceAuthKey)
      && userTokenResult == Lookup(sessionStorage.items, UserAuthKey)
    }

    constructor (url: string, local: Storage, session: Storage)
      requires local != session
      ensures Valid() && Mirrored()
      ensures baseUrl == url && localStorage == local && sessionStorage == session
      ensures deviceTokenResult == Lookup(local.items, DeviceAuthKey)
      ensures userTokenResult == Lookup(session.items, UserAuthKey)
      ensures !onUnauthorized && unauthorizedCalls == []
    {
      baseUrl, localStorage, sessionStorage := url, local, session;
      userTokenResult, deviceTokenResult := None, None;
      onUnauthorized, unauthorizedCalls := false, [];
      new;
      RestoreTokens();
    }

    /** Loads each token whose storage entry exists; a missing entry leaves the field as it is. */
    method RestoreTokens()
      modifies this`deviceTokenResult, this`userTokenResult
      ensures deviceTokenResult ==
                if DeviceAuthKey in localStorage.items then Some(localStorage.items[DeviceAuthKey])
                else old(deviceTokenResult)
      ensures userTokenResult ==
                if UserAuthKey in sessionStorage.items then Some(sessionStorage.items[UserAuthKey])
                else old(userTokenResult)
    {
      var rawDeviceAuth := localStorage.GetItem(DeviceAuthKey);
      if rawDeviceAuth.Some? {
        deviceTokenResult := rawDeviceAuth;
      }
      var rawUserAuth := sessionStorage.GetItem(UserAuthKey);
      if rawUserAuth.Some? {
        userTokenResult := rawUserAuth;
      }
    }

    /** Login through the base client: its request for `requestUrl` goes through
        `fetchWrapper` to the login endpoint, where `fetch` answers `response`, and the base
        client's answer is `base`. A missing answer or an empty token fails and keeps the
        tokens; a token is kept and written to session storage. */
    method UserLogin(loginName: string, password: string, requestUrl: string, init: Option<RequestInit>,
                     response: FetchResult, base: BaseCall<Option<TokenResult>>)
      returns (sent: RequestInit, r: Result<TokenResult, ApiError>)
      requires Valid()
      modifies this`userTokenResult, this`unauthorizedCalls, sessionStorage
      ensures sent == PrepareRequest(LoginPrefix, old(deviceTokenResult), old(userTokenResult), init)
      ensures sent == CopyInit(init)
      ensures unauthorizedCalls ==
                old(unauthorizedCalls) + if onUnauthorized && IsUnauthorized(response) then [requestUrl] else []
      ensures r.Ok? <==> base.Resolved? && base.value.Some? && base.value.value.token != ""
      ensures base.Rejected? ==> r == Err(Transport)
      ensures base.Resolved? && r.Err? ==> r == Err(TokenNotFound)
      ensures r.Ok? ==> r.value == base.value.value
      ensures r.Ok? ==> userTokenResult == Some(r.value)
      ensures r.Ok? ==> sessionStorage.items == old(sessionStorage.items)[UserAuthKey := r.value]
      ensures r.Err? ==> userTokenResult == old(userTokenResult)
      ensures r.Err? ==> sessionStorage.items == old(sessionStorage.items)
      ensures deviceTokenResult == old(deviceTokenResult)
      ensures localStorage.items == old(localStorage.items)
      ensures old(Mirrored()) ==> Mirrored()
    {
      var delivered;
      sent, delivered := FetchWrapper(requestUrl, LoginPrefix, init, response);
      LoginRequestsCarryNoToken(LoginPrefix, deviceTokenResult, userTokenResult, init);
      match base
      case Rejected =>
        r := Err(Transport);
      case Resolved(result) =>
        if result.None? || result.value.token == "" {
          r := Err(TokenNotFound);
        } else {
          userTokenResult := result;
          sessionStorage.SetItem(UserAuthKey, result.value);
          r := Ok(result.value);
        }
    }

    /** Forgets the user token in memory and in session storage. */
    method UserLogout()
      requires Valid()
      modifies this`userTokenResult, sessionStorage
      ensures userTokenResult == None
      ensures sessionStorage.items == old(sessionStorage.items) - {UserAuthKey}
      ensures deviceTokenResult == old(deviceTokenResult)
      ensures localStorage.items == old(localStorage.items)
      ensures old(Mirrored()) ==> Mirrored()
    {
      userTokenResult := None;
      sessionStorage.RemoveItem(UserAuthKey);
    }

    /** Forgets the device token in memory and in local storage. */
    method DeviceAuthReset()
      requires Valid()
      modifies this`deviceTokenResult, localStorage
      ensures deviceTokenResult == None
      ensures localStorage.items == old(localStorage.items) - {DeviceAuthKey}
      ensures userTokenResult == old(userTokenResult)
      ensures sessionStorage.items == old(sessionStorage.items)
      ensures old(Mirrored()) ==> Mirrored()
    {
      deviceTokenResult := None;
      localStorage.RemoveItem(DeviceAuthKey);
    }

    /** `fetchWrapper`: the request for `requestUrl` (whose path is `path`) goes out with `sent`;
        `fetch` answers `response`, which is returned unchanged. A registered hook is called
        with `requestUrl` exactly when the response has status 401. */
    method FetchWrapper(requestUrl: string, path: string, init: Option<RequestInit>, response: FetchResult)
      returns (sent: RequestInit, result: FetchResult)
      modifies this`unauthorizedCalls
      ensures sent == PrepareRequest(path, deviceTokenResult, userTokenResult, init)
      ensures result == response
      ensures unauthorizedCalls ==
                old(unauthorizedCalls) + if onUnauthorized && IsUnauthorized(response) then [requestUrl] else []
    {
      sent := PrepareRequest(path, deviceTokenResult, userTokenResult, init);
      result := response;
      if onUnauthorized {
        if response.Response? && response.status == 401 && onUnauthorized {
          unauthorizedCalls := unauthorizedCalls + [requestUrl];
        }
      }
    }

    /** Device registration with a provisional token: the token is installed first, so the
        registration request (through `fetchWrapper`) carries it; the base client's answer is
        `base`. On success the issued token replaces it and is persisted; on failure the
        provisional token stays in memory and nothing is persisted. */
    method UserDeviceRegisterWithToken(token: string, requestUrl: string, init: Option<RequestInit>,
                                       response: FetchResult, base: BaseCall<TokenResult>)
      returns (sent: RequestInit, r: Result<TokenResult, ApiError>)
      requires Valid()
      modifies this`deviceTokenResult, this`unauthorizedCalls, localStorage
      ensures sent == PrepareRequest(DeviceRegisterPath, Some(TokenResult(token, map[])), old(userTokenResult), init)
      ensures HeaderValue(sent, AuthorizationHeader) == Some(BearerValue(token))
      ensures unauthorizedCalls ==
                old(unauthorizedCalls) + if onUnauthorized && IsUnauthorized(response) then [requestUrl] else []
      ensures base.Resolved? ==> r == Ok(base.value) && deviceTokenResult == Some(base.value)
      ensures base.Resolved? ==> localStorage.items == old(localStorage.items)[DeviceAuthKey := base.value]
      ensures base.Rejected? ==> r == Err(Transport) && deviceTokenResult == Some(TokenResult(token, map[]))
      ensures base.Rejected? ==> localStorage.items == old(localStorage.items)
      ensures userTokenResult == old(userTokenResult)
      ensures sessionStorage.items == old(sessionStorage.items)
      ensures base.Resolved? && old(Mirrored()) ==> Mirrored()
    {
      deviceTokenResult := Some(TokenResult(token, map[]));
      DeviceEndpointCases();
      var delivered;
      sent, delivered := FetchWrapper(requestUrl, DeviceRegisterPath, init, response);
      match base
      case Rejected =>
        r := Err(Transport);
      case Resolved(result) =>
        deviceTokenResult := Some(result);
        localStorage.SetItem(DeviceAuthKey, result);
        r := Ok(result);
    }
  }
}
