# Google sign-in token relay, modelled in Dafny

The relay lets a client that cannot receive HTTP redirects, such as a Unity
game, sign a user in with Google. The client picks a session id and opens
`/auth/google?sessionId=…` in a browser. The server redirects the browser to
Google's authorization endpoint and carries the session id in the OAuth
`state` parameter (section 4.1.1 of RFC 6749). Google then calls
`/auth/callback?code=…&state=…`. The server exchanges the code for tokens
(section 4.1.3 of RFC 6749) and stores the `id_token` under the session id
in its in-memory dictionary `tokenStorage`. The client polls
`/auth/token?sessionId=…` and receives the token once; the entry is deleted
when it is delivered.

The model:

- `wrappers.dfy`: `Option`.
- `relay.dfy`, module `Relay`: JavaScript truthiness of query parameters and
  stored values, the authorization URL, one pure function per handler
  (`StartAuth`, `CallbackStep`, `PollStep`) stating its reply and the
  dictionary it leaves, lemmas about pairs of calls, and the class
  `TokenStore`. Its field `storage` is `tokenStorage`. Its methods `Callback`
  and `FetchToken` update the field in place and are proved equal to the
  step functions.
- `trace.dfy`, module `Trace`: any sequence of requests handled one at a
  time. It proves at-most-once delivery and where delivered tokens come from.
- `plain_object_store.dfy`, module `PlainObjectStore`: the dictionary as the
  source declares it, a plain object literal that inherits `Object.prototype`.
  It shows where that differs from a dictionary (see Findings).

Each handler is one atomic step. Node runs the handlers one at a time. The
callback awaits the token exchange, but it changes the dictionary only after
that await, so its step is placed at the moment of the write. The token exchange is not modelled as a network call. Its outcome is an
input to the callback: `Ok(idToken)` or `Fail`. `idToken` is `None` when
Google's reply has no `id_token` field. `CLIENT_ID` and `REDIRECT_URI` are a
`Config` parameter. An unset setting is rendered as `undefined`, as the
template literal does.

What the code does, and does not do:

- The client chooses the session id (index.js:19).
- There is no per-session state besides the stored token: no pending or failed state and no expiry.
- A callback writes an entry for any truthy `state` (index.js:57), whether or not a login was started for it and whether or not a token was already delivered for it.
- A second completed callback for the same `state` overwrites the first token.
- Missing settings are not checked at start-up. An unset `CLIENT_ID` or `REDIRECT_URI` appears as `undefined` in the URL.

## Model

| member | source | states |
|---|---|---|
| Relay.StartAuth | index.js:18-31 | 400 exactly when `sessionId` is absent or empty. Otherwise a redirect whose URL gives back exactly that `sessionId`. The dictionary is not a parameter, so it cannot change. |
| Relay.AuthUrlShape | index.js:24-28 | The authorization URL starts with Google's endpoint and ends with `&state=` followed by the session id as given, not encoded. |
| Relay.AuthUrlRoundTrip | index.js:24-28 | `SessionIdOf` inverts `AuthUrl` in both directions: a URL yields session id `s` exactly when it is the authorization URL built for `s`. |
| Relay.CallbackStep | index.js:34-64 | 400 exactly when `code` or `state` is falsy. 500 exactly when both are present and the exchange failed. The dictionary is unchanged in both cases. On success, `state` maps to the exchanged `id_token`, any earlier entry is overwritten, and every other key is unchanged. |
| Relay.PollStep | index.js:67-76 | A token is returned exactly when `sessionId` is truthy and its entry is truthy. The token returned is that entry. Only that entry is removed. Otherwise 404 and the dictionary is unchanged. |
| Relay.RepeatPollNotAvailable | index.js:70-75 | Right after a delivery, a second poll for the same session answers 404 and changes nothing. |
| Relay.CallbackThenPoll | index.js:54-72 | After a completed exchange with a truthy token, the next poll delivers exactly that token. The dictionary is then the one before the callback minus that session. |
| Relay.LastWriteWins | index.js:57 | After two completed exchanges for one session, the poll delivers the second token. |
| Relay.FalsyTokenNeverDelivered | index.js:54-72 | A completed exchange without a usable `id_token` stores an entry that no poll delivers or removes. |
| Relay.TokenStore.constructor | index.js:15 | The dictionary starts empty. |
| Relay.TokenStore.Callback | index.js:34-64 | The in-place update of `storage` equals `CallbackStep`: unchanged unless authenticated, otherwise `old(storage)[state := id_token]`. |
| Relay.TokenStore.FetchToken | index.js:67-76 | The in-place update of `storage` equals `PollStep`: the delivered entry is deleted, otherwise `storage` is unchanged. |
| Trace.Step | index.js:18-76 | Starting a login never changes the dictionary. No request changes a key other than its own `state` or `sessionId`. |
| Trace.Run | index.js:18-76 | Requests are handled one after another, with one reply per request. |
| Trace.StepBound | index.js:57-72 | In one step, a delivery consumes the waiting token. A token becomes waiting only when a callback stores one. |
| Trace.DeliveryBound | index.js:57-72 | At-most-once delivery over any run: deliveries for a session plus the token still waiting at the end are at most the token waiting at the start plus the deliverable tokens stored for it. |
| Trace.NoTokenBeforeCallback | index.js:70-75 | Until a callback stores a token for a session, every poll for it answers 404, however many polls there are. |
| Trace.TokenOrigin | index.js:42-72 | A delivered token was in the initial dictionary under that id, or an earlier callback for that same id stored exactly that token after a completed exchange. A failed exchange never leads to a delivery. |
| Trace.TokensComeFromCallbacks | index.js:15-72 | Starting from the empty dictionary, every delivered token was stored for that session by an earlier completed exchange. |
| Trace.SingleDeliveryScenario | index.js:18-76 | Start, callback, poll, poll: redirect, success, the token, then 404, and the dictionary ends empty. |
| PlainObjectStore.CallbackAsWritten | index.js:34-64 | For every `state` except `__proto__`, the callback on the object literal behaves exactly as `Relay.CallbackStep`. |
| PlainObjectStore.PollAsWritten | index.js:67-76 | For every session id that is not an inherited `Object.prototype` name, and whenever an own entry shadows one, the poll on the object literal behaves exactly as `Relay.PollStep`. |
| PlainObjectStore.InheritedKeyAnswered | index.js:70-72 | As written, a poll for an inherited name that has no own entry answers 200 with no token and changes nothing. |
| PlainObjectStore.ToStringAnsweredTwice | index.js:57-72 | As written, a token stored under `toString` is delivered, and the next poll answers 200 again instead of 404. |
| PlainObjectStore.ProtoTokenLost | index.js:57-72 | As written, a completed exchange for `__proto__` reports success but stores nothing. Polls for that id answer 200 with `Object.prototype`. |
| PlainObjectStore.RunAsWritten | index.js:15-76 | Requests are handled one after another on the object literal, with one reply per request. |
| PlainObjectStore.StepAgrees | index.js:15-76 | One request on the object literal and on the own-key dictionary gives the same reply, unless it is a poll for an inherited name. Afterwards the two dictionaries still agree on every key that is not an inherited name. |
| PlainObjectStore.RunAgrees | index.js:15-76 | Over any run, the object literal answers every request as `Trace.Run` does, except polls for inherited names. The two dictionaries agree outside the inherited names throughout. |
| PlainObjectStore.SameDeliveryCount | index.js:70-72 | For a session id that is not an inherited name, the two runs count the same number of 200 replies to its polls. |
| PlainObjectStore.AsWrittenDeliveryBound | index.js:15-76 | At-most-once delivery for the source as written: starting from `{}`, the 200 replies for an id that is not an inherited name are at most the deliverable tokens stored for it. |
| PlainObjectStore.AsWrittenTokenOrigin | index.js:15-76 | Token origin for the source as written: starting from `{}`, a token delivered for an id that is not an inherited name was stored for that id by an earlier completed exchange. |

## Left out

- Express setup, JSON body parsing, CORS, dotenv, `app.listen` and the `PORT` default (index.js:1-12, 78-82) are process plumbing.
- The POST to Google's token endpoint (index.js:44-52) is a network call. The model takes its outcome as an input. `CLIENT_SECRET` is used only there, so it is not modelled.
- `console.error` logging (index.js:61) has no effect on state.
- The `await` at index.js:44 is not modelled as a suspension. The callback changes the dictionary only at index.js:57, after the await, in one synchronous part. So each callback is one step placed at that write, and a poll that arrives while its exchange is in flight is a poll ordered before that step. Every interleaving of the handlers is therefore one of the modelled runs.
- The HTML and JSON bodies are modelled only as the reply kinds and their status codes.
- Query parameters are either absent or a single string. Repeated or bracketed parameters, which Express parses into arrays or objects, are not modelled.
- `id_token` is either a string or missing. Other JSON values in Google's reply are not modelled.
- Relay.AuthUrlShape: the session id is inserted without percent-encoding, and Express's URL encoding of the redirect leaves `&`, `#`, `+` and a `%` followed by two hex digits as they are. Google then reads an id containing any of these altered. How Google parses the query string is not part of this model, so only the verbatim concatenation is proved.
- Relay.StartAuth: `Redirect(url)` is the argument passed to `res.redirect` (index.js:30). The `Location` header is that URL after Express's URL encoding, which is not modelled.

## Findings

| source | as written | input that shows it | evidently intended | confidence | as-written member | corrected member |
|---|---|---|---|---|---|---|
| index.js:15-72 | `tokenStorage` is the literal `{}`, so `tokenStorage[sessionId]` also finds inherited `Object.prototype` members, and `delete` cannot remove them | `GET /auth/token?sessionId=toString` (or `constructor`, `valueOf`, …): 200 with no token, before any callback and again right after the stored token was delivered | 404 unless a token is stored for the id, and at most one 200 per stored token | medium, not executed | PlainObjectStore.ToStringAnsweredTwice | Trace.DeliveryBound |
| index.js:57 | `tokenStorage["__proto__"] = id_token` calls the prototype setter, which ignores a string, so nothing is stored | callback with `state=__proto__` and a completed exchange: "Authentication successful", but polls for `__proto__` get 200 with `Object.prototype` and never the token | the token is stored under the id and delivered once | medium, not executed | PlainObjectStore.ProtoTokenLost | Relay.CallbackThenPoll |

The rest of the model uses the corrected dictionary, one with own keys only, as a `Map` or `Object.create(null)` would give.
`PlainObjectStore.RunAgrees` proves that, over any run, the object literal gives the same replies as the corrected dictionary, except for polls for the twelve inherited names.
So the at-most-once and token-origin theorems hold of the source as written for every other session id (`PlainObjectStore.AsWrittenDeliveryBound`, `PlainObjectStore.AsWrittenTokenOrigin`).
