/**
 * The per-session token relay of index.js: the module-level dictionary
 * `tokenStorage` and the three request handlers `/auth/google`,
 * `/auth/callback` and `/auth/token` that share it.
 *
 * Every handler is one atomic step. Node runs handlers one at a time, and
 * the callback, although it awaits the token exchange, touches the
 * dictionary only in the synchronous part after that await; so its step
 * stands at the moment of the write, and a poll that arrives while the
 * exchange is in flight is a poll ordered before that step. The
 * dictionary is modelled as a dictionary with own keys only; how the plain
 * object literal of the source differs from that is the subject of module
 * PlainObjectStore.
 */
module Relay {
  import opened Wrappers

  /** JavaScript truthiness of a query parameter or of a stored token:
      `undefined` (None) and the empty string are falsy, every other string
      is truthy. */
  predicate Truthy(v: Option<string>) {
    v.Some? && v.value != ""
  }

  /** `tokenStorage`: session id to the stored `id_token`; a stored `None`
      is the `undefined` written when the provider's reply had no
      `id_token` field. */
  type Store = map<string, Option<string>>

  /** The settings read from the environment at start-up. The source does
      not check them: an unset one is simply `undefined`. */
  datatype Config = Config(clientId: Option<string>, redirectUri: Option<string>)

  /** What the server-to-server code exchange produced: a reply whose body
      carried `id_token` (None when the field was absent), or any failure
      that lands in the handler's `catch` (network error, non-2xx status,
      a reply without a body). */
  datatype ExchangeResult = Ok(idToken: Option<string>) | Fail

  /** Replies of `/auth/google`. */
  datatype StartResponse =
    | Redirect(url: string)      // 302 to the provider's authorization URL
    | MissingSessionId           // 400 { error: "Missing session ID" }
  {
    function Status(): int {
      if Redirect? then 302 else 400
    }
  }

  /** Replies of `/auth/callback`; the HTML bodies are not modelled. */
  datatype CallbackResponse =
    | Authenticated              // 200 "Authentication successful! ..."
    | InvalidRequest             // 400 "Invalid request."
    | AuthenticationFailed       // 500 "Authentication failed"
  {
    function Status(): int {
      match this
      case Authenticated => 200
      case InvalidRequest => 400
      case AuthenticationFailed => 500
    }
  }

  /** Replies of `/auth/token`. */
  datatype TokenResponse =
    | Token(idToken: string)     // 200 { id_token }
    | NotAvailable               // 404 { error: "Token not available" }
  {
    function Status(): int {
      if Token? then 200 else 404
    }
  }

  /** A handler's reply together with the dictionary it leaves behind. */
  datatype Transition<R> = Transition(response: R, store: Store)

  const AuthEndpoint := "https://accounts.google.com/o/oauth2/v2/auth?"
  const ScopeParams := "&scope=openid%20email%20profile&access_type=offline&prompt=consent"

  /** Template-literal interpolation: an unset setting renders as "undefined". */
  function Interpolate(v: Option<string>): string {
    if v.Some? then v.value else "undefined"
  }

  /** The fixed part of the authorization URL, up to and including `state=`. */
  function AuthUrlPrefix(c: Config): string {
    AuthEndpoint
      + "response_type=code&client_id=" + Interpolate(c.clientId)
      + "&redirect_uri=" + Interpolate(c.redirectUri)
      + ScopeParams
      + "&state="
  }

  /** The authorization URL of section 4.1.1 of RFC 6749, carrying the
      caller's session id, unencoded, as its `state` parameter. */
  function AuthUrl(c: Config, sessionId: string): string {
    AuthUrlPrefix(c) + sessionId
  }

  /** The inverse of AuthUrl: the session id an authorization URL of this
      configuration carries, if it is one. */
  function SessionIdOf(c: Config, url: string): Option<string> {
    var p := AuthUrlPrefix(c);
    if |p| <= |url| && url[..|p|] == p then Some(url[|p|..]) else None
  }

  /** The URL starts at the provider's endpoint and ends with
      `&state=` followed by the session id exactly as given. */
  lemma AuthUrlShape(c: Config, sessionId: string)
    ensures var url := AuthUrl(c, sessionId);
      |AuthEndpoint| + |ScopeParams| + |"&state="| + |sessionId| <= |url|
      && url[..|AuthEndpoint|] == AuthEndpoint
      && url[|url| - |sessionId| - 7..] == "&state=" + sessionId
  {
  }

  /** An authorization URL gives back exactly the session id it was built
      from, and a URL carries a session id only if it is that id's URL. */
  lemma AuthUrlRoundTrip(c: Config, url: string, sessionId: string)
    ensures SessionIdOf(c, AuthUrl(c, sessionId)) == Some(sessionId)
    ensures SessionIdOf(c, url) == Some(sessionId) <==> url == AuthUrl(c, sessionId)
  {
  }

  /** `GET /auth/google`: a falsy `sessionId` is refused with 400; any other
      is sent to the provider inside the authorization URL. The handler
      never touches the dictionary. */
  function StartAuth(c: Config, sessionId: Option<string>): (r: StartResponse)
    ensures r.MissingSessionId? <==> !Truthy(sessionId)
    ensures r.Status() == 400 <==> !Truthy(sessionId)
    ensures r.Redirect? ==> SessionIdOf(c, r.url) == sessionId
  {
    if !Truthy(sessionId) then MissingSessionId
    else
      AuthUrlRoundTrip(c, AuthUrl(c, sessionId.value), sessionId.value);
      Redirect(AuthUrl(c, sessionId.value))
  }

  /** `GET /auth/callback`: a falsy `code` or `state` is refused with 400
      and a failed exchange answers 500, both leaving the dictionary as it
      was; a completed exchange writes its `id_token` under `state`,
      replacing any earlier entry, and changes no other key. */
  function CallbackStep(s: Store, code: Option<string>, state: Option<string>, ex: ExchangeResult)
    : (r: Transition<CallbackResponse>)
    ensures r.response == InvalidRequest <==> !Truthy(code) || !Truthy(state)
    ensures r.response == AuthenticationFailed <==> Truthy(code) && Truthy(state) && ex.Fail?
    ensures r.response != Authenticated ==> r.store == s
    ensures r.response == Authenticated ==>
      Truthy(state) && ex.Ok?
      && r.store.Keys == s.Keys + {state.value}
      && r.store[state.value] == ex.idToken
      && (forall k :: k in s && k != state.value ==> r.store[k] == s[k])
  {
    if !Truthy(code) || !Truthy(state) then Transition(InvalidRequest, s)
    else match ex
      case Fail => Transition(AuthenticationFailed, s)
      case Ok(idToken) => Transition(Authenticated, s[state.value := idToken])
  }

  /** `GET /auth/token`: the stored token is delivered when `sessionId` is
      truthy and its entry is truthy, and the entry is then removed and
      nothing else; otherwise 404 and the dictionary is unchanged. */
  function PollStep(s: Store, sessionId: Option<string>): (r: Transition<TokenResponse>)
    ensures r.response.Token? <==>
      Truthy(sessionId) && sessionId.value in s && Truthy(s[sessionId.value])
    ensures r.response.Token? ==>
      s[sessionId.value] == Some(r.response.idToken)
      && r.store.Keys == s.Keys - {sessionId.value}
      && (forall k :: k in r.store ==> r.store[k] == s[k])
    ensures r.response.NotAvailable? ==> r.store == s
  {
    if Truthy(sessionId) && sessionId.value in s && Truthy(s[sessionId.value]) then
      Transition(Token(s[sessionId.value].value), s - {sessionId.value})
    else
      Transition(NotAvailable, s)
  }

  /** At-most-once delivery: right after a poll has delivered a token, the
      same poll answers 404 and changes nothing. */
  lemma RepeatPollNotAvailable(s: Store, sessionId: Option<string>)
    requires PollStep(s, sessionId).response.Token?
    ensures var after := PollStep(s, sessionId).store;
      PollStep(after, sessionId) == Transition(NotAvailable, after)
  {
  }

  /** A completed exchange with a truthy token makes the next poll for that
      session deliver exactly that token and leave the dictionary as it was
      before the callback, minus that session's entry. */
  lemma CallbackThenPoll(s: Store, code: string, sessionId: string, token: string)
    requires code != "" && sessionId != "" && token != ""
    ensures var cb := CallbackStep(s, Some(code), Some(sessionId), Ok(Some(token)));
      cb.response == Authenticated
      && PollStep(cb.store, Some(sessionId)) == Transition(Token(token), s - {sessionId})
  {
  }

  /** The last write wins: of two completed exchanges for one session, the
      poll delivers the second token. */
  lemma LastWriteWins(s: Store, code1: string, code2: string, sessionId: string, t1: string, t2: string)
    requires code1 != "" && code2 != "" && sessionId != "" && t2 != ""
    ensures var s1 := CallbackStep(s, Some(code1), Some(sessionId), Ok(Some(t1))).store;
      var s2 := CallbackStep(s1, Some(code2), Some(sessionId), Ok(Some(t2))).store;
      PollStep(s2, Some(sessionId)).response == Token(t2)
  {
  }

  /** A completed exchange whose reply had no usable `id_token` stores a
      falsy value, which no poll ever delivers or removes. */
  lemma FalsyTokenNeverDelivered(s: Store, code: string, sessionId: string, idToken: Option<string>)
    requires code != "" && sessionId != "" && !Truthy(idToken)
    ensures var s1 := CallbackStep(s, Some(code), Some(sessionId), Ok(idToken)).store;
      sessionId in s1 && PollStep(s1, Some(sessionId)) == Transition(NotAvailable, s1)
  {
  }

  /** The dictionary shared by the handlers that change it. */
  class TokenStore {
    var storage: Store

    /** `let tokenStorage = {}` */
    constructor ()
      ensures storage == map[]
    {
      storage := map[];
    }

    /** `GET /auth/callback` with the token exchange's outcome as input. */
    method Callback(code: Option<string>, state: Option<string>, ex: ExchangeResult)
      returns (response: CallbackResponse)
      modifies this
      ensures Transition(response, storage) == CallbackStep(old(storage), code, state, ex)
      ensures response != Authenticated ==> storage == old(storage)
      ensures response == Authenticated ==> storage == old(storage)[state.value := ex.idToken]
    {
      if !Truthy(code) || !Truthy(state) {
        return InvalidRequest;
      }
      match ex {
        case Fail =>
          response := AuthenticationFailed;
        case Ok(idToken) =>
          storage := storage[state.value := idToken];
          response := Authenticated;
      }
    }

    /** `GET /auth/token`: deliver the session's token once. */
    method FetchToken(sessionId: Option<string>) returns (response: TokenResponse)
      modifies this
      ensures Transition(response, storage) == PollStep(old(storage), sessionId)
      ensures response.Token? ==> storage == old(storage) - {sessionId.value}
      ensures response.NotAvailable? ==> storage == old(storage)
    {
      if Truthy(sessionId) && sessionId.value in storage && Truthy(storage[sessionId.value]) {
        response := Token(storage[sessionId.value].value);
        storage := storage - {sessionId.value};
      } else {
        response := NotAvailable;
      }
    }
  }
}
