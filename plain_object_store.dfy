/**
 * `tokenStorage` exactly as index.js declares it: the object literal `{}`.
 * Property lookup on such an object also finds the members every object
 * inherits from Object.prototype, and assigning to its `__proto__` key
 * calls the prototype setter instead of creating an entry. For session ids
 * outside those inherited names the handlers behave exactly as modelled in
 * Relay (PollAsWritten and CallbackAsWritten say so, and RunAgrees
 * carries that over to whole runs); for the inherited names they do not,
 * as InheritedKeyAnswered, ToStringAnsweredTwice and ProtoTokenLost show.
 */
module PlainObjectStore {
  import opened Wrappers
  import opened Relay
  import opened Trace

  /** The property names every object inherits from Object.prototype. */
  const InheritedKeys: set<string> := {
    "constructor", "__proto__", "toString", "toLocaleString", "valueOf",
    "hasOwnProperty", "isPrototypeOf", "propertyIsEnumerable",
    "__defineGetter__", "__defineSetter__", "__lookupGetter__", "__lookupSetter__"
  }

  /** What `tokenStorage[k]` can evaluate to: `undefined`, a stored string,
      or an inherited member (a function, or Object.prototype itself for
      `__proto__`), which is truthy and is not a string. */
  datatype JsValue = Undefined | Str(s: string) | InheritedMember

  predicate IsTruthy(v: JsValue) {
    match v
    case Undefined => false
    case Str(x) => x != ""
    case InheritedMember => true
  }

  /** `tokenStorage[k]`: an own entry first, then the prototype. */
  function Get(own: Store, k: string): JsValue {
    if k in own then (if own[k].Some? then Str(own[k].value) else Undefined)
    else if k in InheritedKeys then InheritedMember
    else Undefined
  }

  /** `tokenStorage[k] = v`: the `__proto__` setter ignores a value that is
      not an object, so no entry is created for that key. */
  function Put(own: Store, k: string, v: Option<string>): Store {
    if k == "__proto__" then own else own[k := v]
  }

  /** Replies of `/auth/token` as written: the 200 body carries whatever
      `tokenStorage[sessionId]` evaluated to. */
  datatype JsTokenResponse = JsonToken(idToken: JsValue) | TokenNotAvailable

  function AsJs(r: TokenResponse): JsTokenResponse {
    match r
    case Token(t) => JsonToken(Str(t))
    case NotAvailable => TokenNotAvailable
  }

  /** `GET /auth/callback` on the object literal. It agrees with
      Relay.CallbackStep for every `state` except `__proto__`. */
  function CallbackAsWritten(own: Store, code: Option<string>, state: Option<string>, ex: ExchangeResult)
    : (r: Transition<CallbackResponse>)
    ensures state != Some("__proto__") ==> r == CallbackStep(own, code, state, ex)
  {
    if !Truthy(code) || !Truthy(state) then Transition(InvalidRequest, own)
    else match ex
      case Fail => Transition(AuthenticationFailed, own)
      case Ok(idToken) => Transition(Authenticated, Put(own, state.value, idToken))
  }

  /** `GET /auth/token` on the object literal. It agrees with
      Relay.PollStep for every session id that is not an inherited name,
      and for an inherited name whenever an own entry shadows it. */
  function PollAsWritten(own: Store, sessionId: Option<string>): (r: Transition<JsTokenResponse>)
    ensures sessionId.None? || sessionId.value !in InheritedKeys || sessionId.value in own ==>
      r == Transition(AsJs(PollStep(own, sessionId).response), PollStep(own, sessionId).store)
  {
    if Truthy(sessionId) && IsTruthy(Get(own, sessionId.value)) then
      Transition(JsonToken(Get(own, sessionId.value)), own - {sessionId.value})
    else
      Transition(TokenNotAvailable, own)
  }

  /** As written, a poll for an inherited name with no own entry answers
      200 with no token in it (not 404) and changes nothing, so it does so
      on every repetition, whether or not a callback ever happened. */
  lemma InheritedKeyAnswered(own: Store, k: string)
    requires k in InheritedKeys && k !in own
    ensures PollAsWritten(own, Some(k)) == Transition(JsonToken(InheritedMember), own)
  {
  }

  /** As written, a token stored under `toString` is delivered, and the next
      poll answers 200 again instead of 404: the at-most-once answer of
      Relay.RepeatPollNotAvailable does not hold for this id. */
  lemma ToStringAnsweredTwice()
    ensures var s1 := CallbackAsWritten(map[], Some("code"), Some("toString"), Ok(Some("tok"))).store;
      var p1 := PollAsWritten(s1, Some("toString"));
      var p2 := PollAsWritten(p1.store, Some("toString"));
      p1.response == JsonToken(Str("tok")) && p2.response == JsonToken(InheritedMember)
  {
  }

  /** As written, a completed exchange for state `__proto__` reports
      success but stores nothing, and the poll for that id never gets the
      token: it answers 200 with Object.prototype instead. */
  lemma ProtoTokenLost(own: Store, code: string, t: string)
    requires code != "" && "__proto__" !in own
    ensures CallbackAsWritten(own, Some(code), Some("__proto__"), Ok(Some(t)))
      == Transition(Authenticated, own)
    ensures PollAsWritten(own, Some("__proto__")).response == JsonToken(InheritedMember)
  {
  }

  /** Replies of the three handlers as written. */
  datatype JsReply =
    | JsStartReply(start: StartResponse)
    | JsCallbackReply(callback: CallbackResponse)
    | JsTokenReply(token: JsTokenResponse)

  function AsJsReply(r: Reply): JsReply {
    match r
    case StartReply(x) => JsStartReply(x)
    case CallbackReply(x) => JsCallbackReply(x)
    case TokenReply(x) => JsTokenReply(AsJs(x))
  }

  /** One request handled on the object literal. */
  function StepAsWritten(c: Config, own: Store, req: Request): Transition<JsReply> {
    match req
    case StartRequest(sessionId) =>
      Transition(JsStartReply(StartAuth(c, sessionId)), own)
    case CallbackRequest(code, state, ex) =>
      var t := CallbackAsWritten(own, code, state, ex);
      Transition(JsCallbackReply(t.response), t.store)
    case TokenRequest(sessionId) =>
      var t := PollAsWritten(own, sessionId);
      Transition(JsTokenReply(t.response), t.store)
  }

  datatype JsExecution = JsExecution(replies: seq<JsReply>, store: Store)

  /** The requests handled one after another on the object literal. */
  function RunAsWritten(c: Config, own: Store, reqs: seq<Request>): (e: JsExecution)
    ensures |e.replies| == |reqs|
    decreases |reqs|
  {
    if reqs == [] then JsExecution([], own)
    else
      var first := StepAsWritten(c, own, reqs[0]);
      var rest := RunAsWritten(c, first.store, reqs[1..]);
      JsExecution([first.response] + rest.replies, rest.store)
  }

  /** The two dictionaries hold the same entries for every key that is not
      an inherited name. */
  ghost predicate AgreeOutsideInherited(own: Store, s: Store) {
    forall k :: k !in InheritedKeys ==> (k in own <==> k in s) && (k in own ==> own[k] == s[k])
  }

  /** Every request except a poll for an inherited name. */
  predicate Ordinary(req: Request) {
    !(req.TokenRequest? && req.sessionId.Some? && req.sessionId.value in InheritedKeys)
  }

  /** One step on the object literal and on the own-key dictionary: the
      replies agree for an ordinary request, and the dictionaries still
      agree outside the inherited names. */
  lemma StepAgrees(c: Config, own: Store, s: Store, req: Request)
    requires AgreeOutsideInherited(own, s)
    ensures var a := StepAsWritten(c, own, req);
      var b := Step(c, s, req);
      AgreeOutsideInherited(a.store, b.store)
      && (Ordinary(req) ==> a.response == AsJsReply(b.response))
  {
  }

  /** A whole run on the object literal answers every ordinary request as
      Trace.Run does on the own-key dictionary, and the two dictionaries
      agree outside the inherited names throughout. */
  lemma {:induction false} RunAgrees(c: Config, own: Store, s: Store, reqs: seq<Request>)
    requires AgreeOutsideInherited(own, s)
    ensures var a := RunAsWritten(c, own, reqs);
      var b := Run(c, s, reqs);
      AgreeOutsideInherited(a.store, b.store)
      && forall i :: 0 <= i < |reqs| && Ordinary(reqs[i]) ==> a.replies[i] == AsJsReply(b.replies[i])
    decreases |reqs|
  {
    if reqs != [] {
      var a1 := StepAsWritten(c, own, reqs[0]);
      var b1 := Step(c, s, reqs[0]);
      StepAgrees(c, own, s, reqs[0]);
      RunAgrees(c, a1.store, b1.store, reqs[1..]);
      var a := RunAsWritten(c, own, reqs);
      var b := Run(c, s, reqs);
      var ar := RunAsWritten(c, a1.store, reqs[1..]);
      var br := Run(c, b1.store, reqs[1..]);
      forall i | 0 <= i < |reqs| && Ordinary(reqs[i])
        ensures a.replies[i] == AsJsReply(b.replies[i])
      {
        if i > 0 {
          assert a.replies[i] == ar.replies[i - 1];
          assert b.replies[i] == br.replies[i - 1];
          assert reqs[1..][i - 1] == reqs[i];
        }
      }
    }
  }

  /** The poll for `k` was answered, as written, with a 200. */
  predicate JsDelivers(req: Request, reply: JsReply, k: string) {
    req == TokenRequest(Some(k)) && reply.JsTokenReply? && reply.token.JsonToken?
  }

  function JsDeliveryCount(reqs: seq<Request>, replies: seq<JsReply>, k: string): nat
    decreases |reqs|
  {
    if reqs == [] || replies == [] then 0
    else
      (if JsDelivers(reqs[0], replies[0], k) then 1 else 0)
      + JsDeliveryCount(reqs[1..], replies[1..], k)
  }

  /** Counting 200s for a non-inherited `k` gives the same number on both
      dictionaries once the replies to the polls for `k` agree. */
  lemma {:induction false} SameDeliveryCount(reqs: seq<Request>, js: seq<JsReply>, rs: seq<Reply>, k: string)
    requires k !in InheritedKeys && |js| == |reqs| == |rs|
    requires forall i :: 0 <= i < |reqs| && Ordinary(reqs[i]) ==> js[i] == AsJsReply(rs[i])
    ensures JsDeliveryCount(reqs, js, k) == DeliveryCount(reqs, rs, k)
    decreases |reqs|
  {
    if reqs != [] {
      assert Ordinary(reqs[0]) ==> js[0] == AsJsReply(rs[0]);
      forall i | 0 <= i < |reqs| - 1 && Ordinary(reqs[1..][i])
        ensures js[1..][i] == AsJsReply(rs[1..][i])
      {
        assert reqs[1..][i] == reqs[i + 1];
      }
      SameDeliveryCount(reqs[1..], js[1..], rs[1..], k);
    }
  }

  /** At-most-once delivery holds of the source as written for every
      session id that is not an inherited name: starting from `{}`, the
      200s for `k` are at most the deliverable tokens stored for `k`. */
  lemma AsWrittenDeliveryBound(c: Config, reqs: seq<Request>, k: string)
    requires k !in InheritedKeys
    ensures JsDeliveryCount(reqs, RunAsWritten(c, map[], reqs).replies, k) <= WriteCount(reqs, k)
  {
    RunAgrees(c, map[], map[], reqs);
    SameDeliveryCount(reqs, RunAsWritten(c, map[], reqs).replies, Run(c, map[], reqs).replies, k);
    DeliveryBound(c, map[], reqs, k);
  }

  /** Token origin holds of the source as written for every session id that
      is not an inherited name: a token delivered from `{}` was stored for
      that id by an earlier completed exchange. */
  lemma AsWrittenTokenOrigin(c: Config, reqs: seq<Request>, i: nat, k: string, t: string)
    requires k !in InheritedKeys
    requires i < |reqs| && reqs[i] == TokenRequest(Some(k))
    requires RunAsWritten(c, map[], reqs).replies[i] == JsTokenReply(JsonToken(Str(t)))
    ensures exists j :: 0 <= j < i && StoresToken(reqs[j], k, t)
  {
    RunAgrees(c, map[], map[], reqs);
    assert Ordinary(reqs[i]);
    var r := Run(c, map[], reqs).replies[i];
    assert r == TokenReply(Token(t)) by {
      assert RunAsWritten(c, map[], reqs).replies[i] == AsJsReply(r);
    }
    TokensComeFromCallbacks(c, reqs, i, k, t);
  }
}
