# Multi-session chat service: lifecycle model in Dafny

This project models the core of a small service that runs several automated
WhatsApp sessions behind an HTTP control plane. It proves properties of that
model. Four pieces are modelled:

- **The `main.js` registry.** A module-level map from session id to
  `{ client, token }` (module `Server`). The inputs of this state machine
  are the `/create-session`, `/close-session` and `/send-message` handlers
  and the listeners each client registers: `ready` (once), `qr`,
  `disconnected` and `message_create`. Only `createWhatsAppSession` (called
  by `/create-session` and by `disconnected`), `/close-session` and
  `disconnected` change the map; `ready` changes only its client's closure,
  and the other inputs change nothing. Each handler is a pure function. It
  takes the state, the request and the outcomes of the opaque calls the
  handler awaits. It returns the new state, the HTTP reply, and the effects
  performed, in order: emits, sends, destroys, initialisations and file
  writes.
- **The pure helpers of `main.js`** (module `Formatting`): chat-id
  normalisation, attachment extension and file name, the event link, and
  the date reshuffle at the end of `formatLocalDate`. They sit on a model of
  JavaScript's `split`/`includes` (module `Strings`).
- **The second registry.** `SessionManager` (module `SessionManager`) holds
  `WhatsAppSession` handles (module `WhatsAppSession`). Each handle's token
  is null until the first `ready` event and is never re-minted, not even on
  reconnect.
- **The `verifyToken` middleware** (module `Auth`). It decides between 403,
  401, and `next` with `req.sessionId` set.

Access tokens are JSON Web Tokens (RFC 7519), modelled abstractly in module
`Tokens`. A token the service signed carries `(sessionId, iat, exp)` with
`exp = iat + 3600`. Any other text fails verification. Expiry follows
section 4.1.4 of RFC 7519: the token is valid only while the current time is
strictly before `exp`. The clock is an ordinary parameter in milliseconds,
as `Date.now()` gives it.

Client objects are identities drawn from a counter. This makes "a fresh
client" and "no client is shared between entries" statable. In `main.js` the
state also holds each client's closure: its session id, whether the
once-only `ready` listener is still registered, and the closure variable
`token`.

Some behaviour of the code worth knowing before reading the model:

- When `destroy` throws, `/close-session` keeps the entry and answers 500.
  The delete at `main.js:177` comes after the awaited destroy at line 176.
- In `main.js` the `ready` listener only reassigns the closure variable
  `token` (line 91). The map entry keeps the `null` captured at line 149.
- A token that fails verification in `/send-message` is answered 500, not
  401. The `jwt.verify` error is caught by the handler's catch-all at lines
  215-217.
- The extension is the segment between the first and the second '/' of the
  media type (`split('/')[1]`, line 130), not everything after the first
  '/'.
- The `disconnected` listener of `main.js` deletes and re-creates the entry
  by session id (lines 114-116). It does not check that the map still holds
  that client. A late `disconnected` from the client of a closed session
  therefore registers the session again
  (`Server.DisconnectAfterCloseReRegisters`).

## Model

| member | source | states |
|---|---|---|
| Strings.Split | Desktop/jeje/Servicios-WHA-main/main.js:45-46 | `split` with a string separator returns at least one piece, and no piece contains the separator |
| Strings.Includes | Desktop/jeje/Servicios-WHA-main/main.js:210 | `includes` is true exactly when the substring occurs at some position of the string |
| Strings.JoinSplit | Desktop/jeje/Servicios-WHA-main/main.js:45-46 | joining the pieces of a split with the same separator gives back the input, so splitting loses nothing |
| Formatting.ChatId | Desktop/jeje/Servicios-WHA-main/main.js:210 | the chat id always contains "@c.us", extends the number it was given, and equals the number whenever the number already contains "@c.us" |
| Formatting.ChatIdIdempotent | Desktop/jeje/Servicios-WHA-main/main.js:210 | normalising a chat id twice is the same as normalising it once |
| Formatting.ChatIdCases | Desktop/jeje/Servicios-WHA-main/main.js:210 | a number that already contains "@c.us" is returned unchanged, and otherwise the suffix is appended; both directions |
| Formatting.Extension | Desktop/jeje/Servicios-WHA-main/main.js:130 | the extension is never empty and never contains '/' |
| Formatting.ExtensionOfMediaType | Desktop/jeje/Servicios-WHA-main/main.js:130 | for `type/subtype[/…]` the extension is the subtype, or "bin" when the subtype is empty |
| Formatting.ExtensionWithoutSubtype | Desktop/jeje/Servicios-WHA-main/main.js:130 | a media type with no '/' gets the extension "bin" |
| Formatting.Decimal | Desktop/jeje/Servicios-WHA-main/main.js:131 | the rendered `Date.now()` is a non-empty string of decimal digits with no leading zero unless the value is 0 |
| Formatting.DecimalRoundTrip | Desktop/jeje/Servicios-WHA-main/main.js:131 | reading the rendered timestamp back gives the millisecond count it came from |
| Formatting.DecimalCanonical | Desktop/jeje/Servicios-WHA-main/main.js:131 | every digit string without a leading zero is the rendering of the number it denotes, so rendering is the canonical `String(n)` |
| Formatting.FormatLocalDate | Desktop/jeje/Servicios-WHA-main/main.js:44-47 | the timestamp is the day, month and year fields of the date part (split at '/') joined with '-', then a space and the time part (after the first ", "); missing fields are "undefined", and the date fields contain no '/' |
| Formatting.AttachmentName | Desktop/jeje/Servicios-WHA-main/main.js:131 | the name is `file_<digits>.<ext>` where the digits read back as the clock value and carry no leading zero; it contains no '/', so under POSIX path rules `path.join` places the file directly in the images directory |
| Formatting.AttachmentLink | Desktop/jeje/Servicios-WHA-main/main.js:137 | for a name without a double quote, the quoted link target of the announcement reads back as exactly `/images/<name>` |
| Formatting.FormatLocalDateReshuffles | Desktop/jeje/Servicios-WHA-main/main.js:45-47 | a locale rendering "D/M/Y, T" becomes "D-M-Y T" |
| Formatting.FormatLocalDateWithoutTime | Desktop/jeje/Servicios-WHA-main/main.js:45-47 | a rendering with no ", " or '/' leaves the missing parts to print as "undefined" |
| Tokens.Sign | Desktop/jeje/Servicios-WHA-main/main.js:91 | a minted token is bound to the session id, its `iat` is the current second, and `exp` is one hour later |
| Tokens.Verify | Desktop/jeje/Servicios-WHA-main/main.js:197 | verification succeeds exactly for a signed token whose `exp` is still in the future, and returns its claims; any text the service did not sign is invalid |
| Tokens.SignVerify | Desktop/jeje/Servicios-WHA-main/main.js:91 | a freshly signed token resolves to its own session id while less than an hour (in whole seconds) has passed, and is reported expired from then on |
| Tokens.ExpiryIsMonotone | Desktop/jeje/Servicios-WHA-main/main.js:197 | once a token is expired it stays expired; if it is accepted at some time, it was also accepted at every earlier time |
| Auth.VerifyToken | Desktop/jeje/Servicios-WHA-main/middlewares/auth.js:5-26 | exactly one outcome: 403 iff there is no header, 401 iff the raw header does not verify, otherwise `next` with `req.sessionId` set to the token's session and nothing else on the request changed |
| Auth.MintedTokenAuthenticates | Desktop/jeje/Servicios-WHA-main/middlewares/auth.js:15-24 | a token the service minted passes while valid, tagging the request with exactly its session; after expiry the answer is 401 |
| Auth.UnsignedHeaderRejected | Desktop/jeje/Servicios-WHA-main/middlewares/auth.js:7-18 | any non-empty header that is not a token the service signed is answered 401 |
| WhatsAppSession.New | Desktop/jeje/Servicios-WHA-main/whatsappSession.js:10-64 | a new handle has the given session id, its own client and a null token, and its client is initialised |
| WhatsAppSession.OnReady | Desktop/jeje/Servicios-WHA-main/whatsappSession.js:41-46 | the first `ready` mints a token for this session; once a token exists, `ready` changes nothing |
| WhatsAppSession.OnQr | Desktop/jeje/Servicios-WHA-main/whatsappSession.js:49-52 | a `qr` event changes no handle state and has no effect |
| WhatsAppSession.OnDisconnected | Desktop/jeje/Servicios-WHA-main/whatsappSession.js:55-60 | disconnection destroys and then re-initialises the same client object; if destroy rejects, the only effect is the destroy attempt; the handle's session id, client and token are unchanged |
| WhatsAppSession.Run | Desktop/jeje/Servicios-WHA-main/whatsappSession.js:40-60 | every event sequence keeps a handle valid: its token, if any, is bound to its own session with a one-hour lifetime |
| WhatsAppSession.GetToken | Desktop/jeje/Servicios-WHA-main/whatsappSession.js:72-74 | `getToken` returns the handle's current token; any token it returns is bound to the handle's session and expires one hour after issue |
| WhatsAppSession.GetClient | Desktop/jeje/Servicios-WHA-main/whatsappSession.js:67-69 | `getClient` returns the client object the handle holds |
| WhatsAppSession.ClientIsStable | Desktop/jeje/Servicios-WHA-main/whatsappSession.js:55-69 | `getClient` returns the same client object after any events: a reconnect re-initialises it and never replaces it |
| WhatsAppSession.RunKeepsIdentityAndToken | Desktop/jeje/Servicios-WHA-main/whatsappSession.js:41-60 | after any events, the handle keeps its session id and client, and a token once held is never replaced, not by later `ready` events and not by reconnects |
| WhatsAppSession.TokenIsMintedAtFirstReady | Desktop/jeje/Servicios-WHA-main/whatsappSession.js:41-46 | from a new handle, the token after any events is the one minted at the first `ready` event, or null if there was none |
| WhatsAppSession.HandleTokenVerifies | Desktop/jeje/Servicios-WHA-main/whatsappSession.js:41-46 | the token of a new handle made ready at time t authenticates its own session until one hour after t |
| SessionManager.Empty | Desktop/jeje/Servicios-WHA-main/sessionManager.js:6-9 | a new manager has no sessions and is valid |
| SessionManager.CreateSession | Desktop/jeje/Servicios-WHA-main/sessionManager.js:17-25 | throws exactly when the id exists, and then leaves the map unchanged and constructs nothing; otherwise it inserts exactly that key, holding a handle with that id, a null token and a client no other handle holds; the invariant is preserved |
| SessionManager.GetSession | Desktop/jeje/Servicios-WHA-main/sessionManager.js:32-34 | returns the stored handle exactly when the id is present, and undefined otherwise |
| SessionManager.DeleteSession | Desktop/jeje/Servicios-WHA-main/sessionManager.js:40-42 | removes only the given key and leaves the other entries untouched; an absent id changes nothing; the invariant is preserved |
| SessionManager.Deliver | Desktop/jeje/Servicios-WHA-main/whatsappSession.js:40-60 | a client event replaces the addressed handle by the handle `WhatsAppSession.Run` gives for that one event, leaves every other entry and the key set unchanged, does nothing for an unregistered id, and keeps the manager invariant |
| SessionManager.DeliverAllRuns | Desktop/jeje/Servicios-WHA-main/whatsappSession.js:40-60 | events delivered through the manager leave the registered id holding exactly the handle `WhatsAppSession.Run` computes from the stored one, with the other entries untouched |
| SessionManager.CreateThenGet | Desktop/jeje/Servicios-WHA-main/sessionManager.js:17-34 | creating a fresh id adds exactly one key, and `getSession` then returns the handle `createSession` returned |
| SessionManager.CreateTwice | Desktop/jeje/Servicios-WHA-main/sessionManager.js:17-20 | a second `createSession` with the same id throws and changes nothing |
| SessionManager.DeleteThenCreate | Desktop/jeje/Servicios-WHA-main/sessionManager.js:17-42 | after `deleteSession(id)`, `createSession(id)` succeeds again |
| SessionManager.CreateAll | Desktop/jeje/Servicios-WHA-main/sessionManager.js:17-25 | any sequence of creates keeps the manager invariant: each handle is keyed by its own id and no client is shared |
| SessionManager.CreateAllRegisters | Desktop/jeje/Servicios-WHA-main/sessionManager.js:17-25 | creating distinct fresh ids in turn registers exactly those ids in addition to the existing ones |
| SessionManager.CreateAllCount | Desktop/jeje/Servicios-WHA-main/sessionManager.js:17-25 | n creates of distinct fresh ids give exactly n new entries |
| SessionManager.CreateAllKeepsExisting | Desktop/jeje/Servicios-WHA-main/sessionManager.js:17-25 | creates, whether fresh or duplicate, never alter an existing session |
| Server.Init | Desktop/jeje/Servicios-WHA-main/main.js:24 | the process starts with an empty, valid registry |
| Server.ClientsNotShared | Desktop/jeje/Servicios-WHA-main/main.js:63-149 | in a valid state, no two entries hold the same client object |
| Server.CreateWhatsAppSession | Desktop/jeje/Servicios-WHA-main/main.js:63-150 | throws exactly when the id exists; otherwise it stores `{ client, token: null }` with a fresh client under exactly that key, registers that client's listeners, and initialises the client |
| Server.CreateSessionRoute | Desktop/jeje/Servicios-WHA-main/main.js:158-167 | a missing or empty id gives 400 before the registry is touched; a duplicate gives 400 with nothing changed; otherwise 200, one new key with a null token and a fresh, initialised client whose listeners (with `ready` still registered) are the only closure added, and the other entries and closures unchanged |
| Server.CloseSessionRoute | Desktop/jeje/Servicios-WHA-main/main.js:170-184 | 400 for a missing id, 404 for an unknown id; otherwise destroy is attempted, and the entry is removed with 200 if it succeeds, with nothing else changed (the client's listeners stay registered), or the state is kept with 500 if it throws |
| Server.SendMessageRoute | Desktop/jeje/Servicios-WHA-main/main.js:187-219 | never changes the registry; 400 iff a field is falsy, with no effect; 500 with no effect when the token does not verify; 404 with no effect for an unregistered session; otherwise exactly one send through that session's client to the normalised chat id, then 200 with the success message, or 500 with the send error's message as details |
| Server.OnReady | Desktop/jeje/Servicios-WHA-main/main.js:86-93 | `ready` leaves the sessions map unchanged; on its first firing it sets only this client's closure token, and after that it changes nothing |
| Server.OnQr | Desktop/jeje/Servicios-WHA-main/main.js:96-100 | a `qr` event changes no state and emits exactly one challenge tagged with the client's session id |
| Server.Teardown | Desktop/jeje/Servicios-WHA-main/main.js:105-112 | with no browser the only effect is destroy; with a browser it is close, then destroy only if the close succeeded, and nothing else |
| Server.OnDisconnected | Desktop/jeje/Servicios-WHA-main/main.js:103-118 | whatever the teardown did, the session stays registered, with a fresh client and a null token; the only closure added is the new client's, with `ready` registered; every other entry and closure, including the old client's, is unchanged |
| Server.OnMessageCreate | Desktop/jeje/Servicios-WHA-main/main.js:121-146 | never changes state; status broadcasts emit nothing; a message without media emits exactly one event with the raw body; null or failed media writes no file and emits nothing; stored media is written under a '/'-free name, then announced with its `/images/` link when the write succeeds and nothing more when it fails |
| Server.Run | Desktop/jeje/Servicios-WHA-main/main.js:86-149 | along any sequence of requests and client events, every entry's `token` stays the null captured at insertion, and no client is shared |
| Server.CreateTwiceRejected | Desktop/jeje/Servicios-WHA-main/main.js:158-167 | a second `/create-session` with the same id answers 400 with the duplicate error and changes nothing |
| Server.CloseTwice | Desktop/jeje/Servicios-WHA-main/main.js:170-184 | two closes in a row answer 200 and then 404, and the second attempts no destroy |
| Server.ReadyMintsOnce | Desktop/jeje/Servicios-WHA-main/main.js:89-93 | a second `ready` on the same client changes nothing |
| Server.ReadyTokenNotInEntry | Desktop/jeje/Servicios-WHA-main/main.js:86-149 | after `ready` the closure holds the minted token, but the session's map entry still holds null |
| Server.SendWithMintedToken | Desktop/jeje/Servicios-WHA-main/main.js:187-219 | a valid token of a registered session sends exactly one message, through that session's client, to the normalised chat id; an expired one gives 500 and sends nothing |
| Server.SendAfterClose | Desktop/jeje/Servicios-WHA-main/main.js:170-219 | after a successful close, a still-valid token of that session gives 404 and sends nothing |
| Server.DisconnectAfterCloseReRegisters | Desktop/jeje/Servicios-WHA-main/main.js:103-118 | a `disconnected` event from the old client of a closed session registers that session again |

## Left out

- The whatsapp-web.js client and puppeteer (`initialize`, `destroy`, `sendMessage`, `downloadMedia`, `pupBrowser`, browser arguments) are opaque. Their results are parameters: success, or a throw with a message; media, null, or a failed download.
- JWT cryptography and the shared secret are left out. A token is either `Signed` with its claims or arbitrary `Text`. Every verification failure other than expiry (bad signature, malformed token, wrong algorithm) is the single error `Invalid`.
- Tokens.Verify: the `details` text that `jsonwebtoken` puts in the 500 reply is not reproduced. The reply carries the abstract reason instead.
- Express routing, the `GET /` page, static serving, the socket.io transport, `qrcode-terminal` and console logging are left out. `io.emit` is an `Emit` effect appended to the step's effect list.
- Filesystem calls are effects or are left out. Creating the images directories is left out. `writeFileSync` is a `WriteFile` effect with a success or failure parameter. Its base64 decoding is not modelled.
- `CustomAuth.logout` does nothing, and nothing in the model deletes authentication artifacts, so the artifact store is not represented.
- `toLocaleString` with the time zone and `Date.now()` are left out. Their outputs are parameters.
- Async interleavings and concurrent requests on the shared map are left out. Each handler and listener is one atomic step.
- Request-body values that are not strings (for example a JSON number as `number`, whose `includes` call would throw) are left out. Body fields are optional strings, and falsy means missing or empty.
- A rejected `initialize()` promise and the unhandled rejection from a failing `destroy` in whatsappSession.js are left out. The model only records that re-initialisation does not happen.
- Path separators other than '/' are not modelled. The attachment name is '/'-free, but on Windows `path.join` (main.js:132) also splits at a backslash, and the extension comes from the sender's media type.
- Auth.UnsignedHeaderRejected: tokens have no textual form, so a header such as "Bearer <signed token>" is represented only as unsigned text. That the header is verified as it is, with no prefix stripped, is stated by `Auth.VerifyToken`, which verifies `req.authorization` itself.
- Server.OnDisconnected: whether `destroy` itself resolves does not influence anything, so it is not a parameter. Its effect is recorded as attempted.
- SessionManager.Deliver: events that reach a handle after `deleteSession` has dropped it from the map are not modelled. The orphan handle is no longer part of the manager state.
