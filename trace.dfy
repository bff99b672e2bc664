/**
 * Runs of the relay: any sequence of requests to the three handlers, each
 * handled atomically in arrival order, starting from some dictionary.
 * The lemmas here are about whole runs: how many times a session's token
 * can be delivered, and where a delivered token can come from.
 */
module Trace {
  import opened Wrappers
  import opened Relay

  /** One request to one of the handlers; the callback carries the outcome
      its token exchange will have. */
  datatype Request =
    | StartRequest(sessionId: Option<string>)
    | CallbackRequest(code: Option<string>, state: Option<string>, exchange: ExchangeResult)
    | TokenRequest(sessionId: Option<string>)

  datatype Reply =
    | StartReply(start: StartResponse)
    | CallbackReply(callback: CallbackResponse)
    | TokenReply(token: TokenResponse)

  /** The dictionary key a request may write or delete, if any. */
  function KeyOf(req: Request): Option<string> {
    match req
    case StartRequest(_) => None
    case CallbackRequest(_, state, _) => state
    case TokenRequest(sessionId) => sessionId
  }

  /** One request handled on dictionary `s`. Starting a login never changes
      the dictionary, and no request touches a key other than its own. */
  function Step(c: Config, s: Store, req: Request): (r: Transition<Reply>)
    ensures req.StartRequest? ==> r.store == s
    ensures forall k :: KeyOf(req) != Some(k) ==>
      (k in r.store <==> k in s) && (k in s ==> r.store[k] == s[k])
  {
    match req
    case StartRequest(sessionId) =>
      Transition(StartReply(StartAuth(c, sessionId)), s)
    case CallbackRequest(code, state, ex) =>
      var t := CallbackStep(s, code, state, ex);
      Transition(CallbackReply(t.response), t.store)
    case TokenRequest(sessionId) =>
      var t := PollStep(s, sessionId);
      Transition(TokenReply(t.response), t.store)
  }

  datatype Execution = Execution(replies: seq<Reply>, store: Store)

  /** The requests handled one after another; one reply per request. */
  function Run(c: Config, s: Store, reqs: seq<Request>): (e: Execution)
    ensures |e.replies| == |reqs|
    decreases |reqs|
  {
    if reqs == [] then Execution([], s)
    else
      var first := Step(c, s, reqs[0]);
      var rest := Run(c, first.store, reqs[1..]);
      Execution([first.response] + rest.replies, rest.store)
  }

  /** 1 when a poll for `k` would deliver a token from `s`, else 0. */
  function Available(s: Store, k: string): nat {
    if k in s && Truthy(s[k]) then 1 else 0
  }

  /** The request is a callback whose completed exchange stores the token
      `t` under `k`. */
  predicate StoresToken(req: Request, k: string, t: string) {
    req.CallbackRequest? && Truthy(req.code) && req.state == Some(k) && k != ""
    && req.exchange == Ok(Some(t))
  }

  /** The request is a callback that stores a deliverable token under `k`. */
  predicate StoresTruthy(req: Request, k: string) {
    req.CallbackRequest? && Truthy(req.code) && req.state == Some(k) && k != ""
    && req.exchange.Ok? && Truthy(req.exchange.idToken)
  }

  /** How many requests store a deliverable token under `k`. */
  function WriteCount(reqs: seq<Request>, k: string): nat {
    if reqs == [] then 0
    else (if StoresTruthy(reqs[0], k) then 1 else 0) + WriteCount(reqs[1..], k)
  }

  /** The request is a poll for `k` whose reply delivered a token. */
  predicate Delivers(req: Request, reply: Reply, k: string) {
    req == TokenRequest(Some(k)) && reply.TokenReply? && reply.token.Token?
  }

  /** How many polls for `k` were answered with a token. */
  function DeliveryCount(reqs: seq<Request>, replies: seq<Reply>, k: string): nat
    decreases |reqs|
  {
    if reqs == [] || replies == [] then 0
    else
      (if Delivers(reqs[0], replies[0], k) then 1 else 0)
      + DeliveryCount(reqs[1..], replies[1..], k)
  }

  /** One request: a delivery for `k` consumes the available token, and a
      token becomes available for `k` only by a callback storing one. */
  lemma StepBound(c: Config, s: Store, req: Request, k: string)
    ensures var t := Step(c, s, req);
      (if Delivers(req, t.response, k) then 1 else 0) + Available(t.store, k)
      <= Available(s, k) + (if StoresTruthy(req, k) then 1 else 0)
  {
  }

  /** At-most-once delivery over a whole run: the tokens delivered for `k`,
      plus the one still waiting at the end, are at most the one waiting at
      the start plus the deliverable tokens stored for `k` during the run.
      In particular every stored token is delivered at most once. */
  lemma {:induction false} DeliveryBound(c: Config, s: Store, reqs: seq<Request>, k: string)
    ensures var e := Run(c, s, reqs);
      DeliveryCount(reqs, e.replies, k) + Available(e.store, k)
      <= Available(s, k) + WriteCount(reqs, k)
    decreases |reqs|
  {
    if reqs != [] {
      var first := Step(c, s, reqs[0]);
      var rest := Run(c, first.store, reqs[1..]);
      StepBound(c, s, reqs[0], k);
      DeliveryBound(c, first.store, reqs[1..], k);
      assert ([first.response] + rest.replies)[1..] == rest.replies;
    }
  }

  /** Polling before any callback has stored a token for `k` answers 404
      every time, however often it is repeated. */
  lemma NoTokenBeforeCallback(c: Config, s: Store, reqs: seq<Request>, k: string)
    requires Available(s, k) == 0 && WriteCount(reqs, k) == 0
    ensures DeliveryCount(reqs, Run(c, s, reqs).replies, k) == 0
  {
    DeliveryBound(c, s, reqs, k);
  }

  /** A token delivered for `k` was either waiting in the initial
      dictionary or stored for `k` by an earlier callback whose exchange
      completed with exactly that token: a failed exchange never produces a
      delivery, and no token is delivered to another session. */
  lemma {:induction false} TokenOrigin(c: Config, s: Store, reqs: seq<Request>, i: nat, k: string, t: string)
    requires i < |reqs| && reqs[i] == TokenRequest(Some(k))
    requires Run(c, s, reqs).replies[i] == TokenReply(Token(t))
    ensures (k in s && s[k] == Some(t)) || exists j :: 0 <= j < i && StoresToken(reqs[j], k, t)
    decreases |reqs|
  {
    var first := Step(c, s, reqs[0]);
    var rest := Run(c, first.store, reqs[1..]);
    if i == 0 {
      assert first.response == TokenReply(Token(t));
    } else {
      assert rest.replies[i - 1] == Run(c, s, reqs).replies[i];
      TokenOrigin(c, first.store, reqs[1..], i - 1, k, t);
      if k in first.store && first.store[k] == Some(t) {
        if KeyOf(reqs[0]) == Some(k) && !(k in s && s[k] == Some(t)) {
          assert StoresToken(reqs[0], k, t);
        }
      } else {
        var j :| 0 <= j < i - 1 && StoresToken(reqs[1..][j], k, t);
        assert StoresToken(reqs[j + 1], k, t);
      }
    }
  }

  /** From the dictionary the server starts with, every delivered token was
      stored for that very session by an earlier completed exchange. */
  lemma TokensComeFromCallbacks(c: Config, reqs: seq<Request>, i: nat, k: string, t: string)
    requires i < |reqs| && reqs[i] == TokenRequest(Some(k))
    requires Run(c, map[], reqs).replies[i] == TokenReply(Token(t))
    ensures exists j :: 0 <= j < i && StoresToken(reqs[j], k, t)
  {
    TokenOrigin(c, map[], reqs, i, k, t);
  }

  /** The flow of the relay end to end: login started, callback completed,
      the token polled twice; the second poll answers 404. */
  lemma SingleDeliveryScenario(c: Config)
    ensures var reqs := [
        StartRequest(Some("S1")),
        CallbackRequest(Some("auth-code"), Some("S1"), Ok(Some("tok-abc"))),
        TokenRequest(Some("S1")),
        TokenRequest(Some("S1"))];
      Run(c, map[], reqs)
        == Execution([
             StartReply(Redirect(AuthUrl(c, "S1"))),
             CallbackReply(Authenticated),
             TokenReply(Token("tok-abc")),
             TokenReply(NotAvailable)], map[])
  {
  }
}
