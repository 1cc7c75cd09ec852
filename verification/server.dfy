/**
 The control plane of main.js: the module-level `sessions` map from
 session id to `{ client, token }`, the client listeners that
 `createWhatsAppSession` registers (`ready` once, `qr`, `disconnected`,
 `message_create`), and the `/create-session`, `/close-session` and
 `/send-message` handlers. Each handler is one atomic step from a state
 and a request (with the outcomes of the opaque calls it awaits) to a new
 state, a reply, and the effects it performed in order.

 The listeners' closures are part of the state: each client object has
 the session id it was created for, whether its once-only `ready`
 listener is still registered, and the closure variable `token`. The
 `ready` listener assigns that variable only; the map entry keeps the
 null captured when it was stored.
 */
module Server {
  import opened Common
  import opened Strings
  import opened Tokens
  import opened Formatting

  /** A value of the `sessions` map: `{ client, token }`. */
  datatype Entry = Entry(client: ClientRef, token: Option<Token>)

  /** What the listeners of one client object close over. */
  datatype Closure = Closure(sessionId: string, readyListening: bool, token: Option<Token>)

  /** The process state: the `sessions` map, the closures of every client
      object ever constructed, and the next client identity. */
  datatype State = State(sessions: map<string, Entry>, closures: map<ClientRef, Closure>, nextClient: ClientRef)

  /** Body of an HTTP reply. */
  datatype Payload =
    | Created(sessionId: string)
    | Done(message: string)
    | Error(error: string)
    | ErrorWithDetails(error: string, details: Details)

  /** The `details` of a 500 reply: the message of the error caught. */
  datatype Details = VerifyFailed(reason: VerifyError) | CallFailed(message: string)

  datatype Reply = Reply(status: nat, payload: Payload)

  /** A handler's step: new state, reply, effects. */
  datatype HttpStep = HttpStep(state: State, reply: Reply, effects: seq<Effect>)

  /** A listener's step: new state and effects. */
  datatype EventStep = EventStep(state: State, effects: seq<Effect>)

  /** Result of `createWhatsAppSession`: the state after insertion, the
      client object it constructed, and the effects it performed. */
  datatype Inserted = Inserted(state: State, client: ClientRef, effects: seq<Effect>)

  /** The body of `/send-message`. */
  datatype SendRequest = SendRequest(number: Option<string>, message: Option<string>, authToken: Option<Token>)

  /** An inbound message as the `message_create` listener sees it. */
  datatype Message = Message(from: string, body: string, hasMedia: bool)

  /** What `message.downloadMedia()` did. */
  datatype Download = Downloaded(mimetype: string, data: string) | NullMedia | DownloadFailed

  const StatusBroadcast: string := "status@broadcast"
  const SessionIdRequired: string := "sessionId es requerido"
  const SendFieldsRequired: string := "number, message y authToken son requeridos"
  const CloseFailed: string := "Error al cerrar la sesión"
  const SendFailed: string := "Error al enviar el mensaje"
  const SendDone: string := "Mensaje enviado correctamente"

  function NotFound(sessionId: string): string {
    "La sesión " + sessionId + " no existe"
  }

  function ClosedMessage(sessionId: string): string {
    "Sesión " + sessionId + " cerrada correctamente"
  }

  /** The process state before any request. */
  function Init(): (st: State)
    ensures Valid(st) && st.sessions == map[]
  {
    State(map[], map[], 0)
  }

  /** Every entry's client was created for that entry's id by a call of
      `createWhatsAppSession` (so no client is shared between entries),
      every entry's token is the null captured at insertion, and every
      client identity was drawn before `nextClient`. */
  predicate Valid(st: State) {
    && (forall id :: id in st.sessions ==> st.sessions[id].client in st.closures)
    && (forall id :: id in st.sessions ==> st.closures[st.sessions[id].client].sessionId == id)
    && (forall id :: id in st.sessions ==> st.sessions[id].token == None)
    && (forall c :: c in st.closures ==> c < st.nextClient)
  }

  /** No client object is held by two entries. */
  lemma ClientsNotShared(st: State, a: string, b: string)
    requires Valid(st) && a in st.sessions && b in st.sessions && a != b
    ensures st.sessions[a].client != st.sessions[b].client
  {
  }

  /** `createWhatsAppSession(sessionId)`: throws for an id already present;
      otherwise constructs a client with its listeners, initialises it, and
      stores `{ client, token: null }` under the id. */
  function CreateWhatsAppSession(st: State, sessionId: string): (r: Result<Inserted, string>)
    requires Valid(st)
    ensures r.Failure? <==> sessionId in st.sessions
    ensures r.Failure? ==> r.error == AlreadyExists(sessionId)
    ensures r.Success? ==>
              && Valid(r.value.state)
              && r.value.client !in st.closures
              && r.value.state.sessions == st.sessions[sessionId := Entry(r.value.client, None)]
              && r.value.state.closures == st.closures[r.value.client := Closure(sessionId, true, None)]
              && r.value.effects == [Initialize(r.value.client)]
  {
    if sessionId in st.sessions then Failure(AlreadyExists(sessionId))
    else
      var c := st.nextClient;
      Success(Inserted(State(st.sessions[sessionId := Entry(c, None)], st.closures[c := Closure(sessionId, true, None)], c + 1), c,
                       [Initialize(c)]))
  }

  /** `POST /create-session`. */
  function CreateSessionRoute(st: State, sessionId: Option<string>): (r: HttpStep)
    requires Valid(st)
    ensures Valid(r.state)
    ensures !Truthy(sessionId) ==> r == HttpStep(st, Reply(400, Error(SessionIdRequired)), [])
    ensures Truthy(sessionId) && sessionId.value in st.sessions
            ==> r == HttpStep(st, Reply(400, Error(AlreadyExists(sessionId.value))), [])
    ensures r.reply.status == 200 <==> Truthy(sessionId) && sessionId.value !in st.sessions
    ensures r.reply.status == 200 ==>
              && r.reply.payload == Created(sessionId.value)
              && r.state.sessions.Keys == st.sessions.Keys + {sessionId.value}
              && (forall id :: id in st.sessions ==> r.state.sessions[id] == st.sessions[id])
              && r.state.sessions[sessionId.value].token == None
              && r.state.sessions[sessionId.value].client !in st.closures
              && r.effects == [Initialize(r.state.sessions[sessionId.value].client)]
              && r.state.closures == st.closures[r.state.sessions[sessionId.value].client := Closure(sessionId.value, true, None)]
  {
    if !Truthy(sessionId) then HttpStep(st, Reply(400, Error(SessionIdRequired)), [])
    else match CreateWhatsAppSession(st, sessionId.value)
      case Failure(message) => HttpStep(st, Reply(400, Error(message)), [])
      case Success(ins) => HttpStep(ins.state, Reply(200, Created(sessionId.value)), ins.effects)
  }

  /** `POST /close-session`: destroy the client, then delete the entry.
      The delete follows the awaited destroy, so when destroy throws the
      entry stays. */
  function CloseSessionRoute(st: State, sessionId: Option<string>, destroy: Outcome): (r: HttpStep)
    requires Valid(st)
    ensures Valid(r.state)
    ensures !Truthy(sessionId) ==> r == HttpStep(st, Reply(400, Error(SessionIdRequired)), [])
    ensures Truthy(sessionId) && sessionId.value !in st.sessions
            ==> r == HttpStep(st, Reply(404, Error(NotFound(sessionId.value))), [])
    ensures Truthy(sessionId) && sessionId.value in st.sessions ==>
              && r.effects == [Destroy(st.sessions[sessionId.value].client)]
              && (destroy.Ok? ==> r.state == st.(sessions := st.sessions - {sessionId.value})
                                  && r.reply == Reply(200, Done(ClosedMessage(sessionId.value))))
              && (destroy.Threw? ==> r.state == st
                                     && r.reply == Reply(500, ErrorWithDetails(CloseFailed, CallFailed(destroy.message))))
  {
    if !Truthy(sessionId) then HttpStep(st, Reply(400, Error(SessionIdRequired)), [])
    else
      var id := sessionId.value;
      if id !in st.sessions then HttpStep(st, Reply(404, Error(NotFound(id))), [])
      else
        var effects := [Destroy(st.sessions[id].client)];
        match destroy
        case Ok => HttpStep(st.(sessions := st.sessions - {id}), Reply(200, Done(ClosedMessage(id))), effects)
        case Threw(message) => HttpStep(st, Reply(500, ErrorWithDetails(CloseFailed, CallFailed(message))), effects)
  }

  /** `POST /send-message`. A token that does not verify is caught by the
      handler's catch-all and answered with 500. */
  function SendMessageRoute(st: State, req: SendRequest, nowMs: nat, send: Outcome): (r: HttpStep)
    requires Valid(st)
    ensures r.state == st
    ensures !(Truthy(req.number) && Truthy(req.message) && TokenTruthy(req.authToken))
            <==> r.reply == Reply(400, Error(SendFieldsRequired))
    ensures r.reply.status == 400 ==> r.effects == []
    ensures Truthy(req.number) && Truthy(req.message) && TokenTruthy(req.authToken) ==>
              match Verify(req.authToken.value, nowMs)
              case Failure(e) => r == HttpStep(st, Reply(500, ErrorWithDetails(SendFailed, VerifyFailed(e))), [])
              case Success(claims) =>
                if claims.sessionId !in st.sessions then
                  r == HttpStep(st, Reply(404, Error(NotFound(claims.sessionId))), [])
                else
                  && r.effects == [SendMessage(st.sessions[claims.sessionId].client, ChatId(req.number.value), req.message.value)]
                  && (r.reply.status == 200 <==> send.Ok?)
                  && (send.Ok? ==> r.reply == Reply(200, Done(SendDone)))
                  && (send.Threw? ==> r.reply == Reply(500, ErrorWithDetails(SendFailed, CallFailed(send.message))))
  {
    if !(Truthy(req.number) && Truthy(req.message) && TokenTruthy(req.authToken)) then
      HttpStep(st, Reply(400, Error(SendFieldsRequired)), [])
    else match Verify(req.authToken.value, nowMs)
      case Failure(e) => HttpStep(st, Reply(500, ErrorWithDetails(SendFailed, VerifyFailed(e))), [])
      case Success(claims) =>
        var id := claims.sessionId;
        if id !in st.sessions then HttpStep(st, Reply(404, Error(NotFound(id))), [])
        else
          var effects := [SendMessage(st.sessions[id].client, ChatId(req.number.value), req.message.value)];
          match send
          case Ok => HttpStep(st, Reply(200, Done(SendDone)), effects)
          case Threw(message) => HttpStep(st, Reply(500, ErrorWithDetails(SendFailed, CallFailed(message))), effects)
  }

  /** The `ready` listener of `client` (registered with `once`): it assigns
      the closure variable `token` and nothing else. */
  function OnReady(st: State, client: ClientRef, nowMs: nat): (r: EventStep)
    requires Valid(st)
    ensures Valid(r.state) && r.effects == []
    ensures r.state.sessions == st.sessions && r.state.closures.Keys == st.closures.Keys
    ensures forall c :: c in st.closures && c != client ==> r.state.closures[c] == st.closures[c]
    ensures client in st.closures && st.closures[client].readyListening ==>
              r.state.closures[client] == Closure(st.closures[client].sessionId, false, Some(Sign(st.closures[client].sessionId, nowMs)))
    ensures client in st.closures && !st.closures[client].readyListening ==> r.state == st
  {
    if client in st.closures && st.closures[client].readyListening then
      var cl := st.closures[client];
      EventStep(st.(closures := st.closures[client := Closure(cl.sessionId, false, Some(Sign(cl.sessionId, nowMs)))]), [])
    else EventStep(st, [])
  }

  /** The `qr` listener of `client`: broadcast the challenge tagged with
      its session. */
  function OnQr(st: State, client: ClientRef, qr: string): (r: EventStep)
    ensures r.state == st
    ensures client in st.closures ==> r.effects == [Emit(QrEvent(st.closures[client].sessionId, qr))]
    ensures client !in st.closures ==> r.effects == []
  {
    if client in st.closures then EventStep(st, [Emit(QrEvent(st.closures[client].sessionId, qr))])
    else EventStep(st, [])
  }

  /** Effects of the `try` block of the `disconnected` listener: close the
      browser when there is one, then destroy the client; a failure of
      either ends the block. */
  function Teardown(client: ClientRef, hasBrowser: bool, browserClose: Outcome): (effects: seq<Effect>)
    ensures Destroy(client) in effects <==> !hasBrowser || browserClose.Ok?
    ensures CloseBrowser(client) in effects <==> hasBrowser
    ensures !hasBrowser ==> effects == [Destroy(client)]
    ensures hasBrowser ==> effects <= [CloseBrowser(client), Destroy(client)]
  {
    if !hasBrowser then [Destroy(client)]
    else if browserClose.Ok? then [CloseBrowser(client), Destroy(client)]
    else [CloseBrowser(client)]
  }

  /** The `disconnected` listener of `client`: after the best-effort
      teardown, the `finally` block deletes the session's entry and calls
      `createWhatsAppSession` again for the same id, which cannot find the
      id and so constructs a fresh client. Whether the teardown failed
      does not matter. */
  function OnDisconnected(st: State, client: ClientRef, hasBrowser: bool, browserClose: Outcome): (r: EventStep)
    requires Valid(st)
    ensures Valid(r.state)
    ensures client !in st.closures ==> r == EventStep(st, [])
    ensures client in st.closures ==>
              var id := st.closures[client].sessionId;
              && r.state.sessions.Keys == st.sessions.Keys + {id}
              && (forall other :: other in st.sessions && other != id ==> r.state.sessions[other] == st.sessions[other])
              && r.state.sessions[id].client !in st.closures
              && r.state.sessions[id].token == None
              && r.effects == Teardown(client, hasBrowser, browserClose) + [Initialize(r.state.sessions[id].client)]
              && r.state.closures == st.closures[r.state.sessions[id].client := Closure(id, true, None)]
  {
    if client !in st.closures then EventStep(st, [])
    else
      var id := st.closures[client].sessionId;
      var removed := st.(sessions := st.sessions - {id});
      match CreateWhatsAppSession(removed, id)
      case Failure(_) => assert false; EventStep(st, [])
      case Success(ins) => EventStep(ins.state, Teardown(client, hasBrowser, browserClose) + ins.effects)
  }

  /** The `message_create` listener of `client`. `localeText` is the
      locale rendering of the receipt time, `nowMs` the `Date.now()` used
      to name a stored attachment, `download` what fetching the media
      returned and `write` what writing the file did. Any failure on the
      media path is caught and logged, so nothing is emitted. */
  function OnMessageCreate(st: State, client: ClientRef, msg: Message, localeText: string, nowMs: nat,
                           download: Download, write: Outcome): (r: EventStep)
    ensures r.state == st
    ensures client !in st.closures || msg.from == StatusBroadcast ==> r.effects == []
    ensures client in st.closures && msg.from != StatusBroadcast && !msg.hasMedia ==>
              r.effects == [Emit(MessageEvent(st.closures[client].sessionId, msg.from, msg.body, FormatLocalDate(localeText)))]
    ensures msg.hasMedia && !download.Downloaded? ==> r.effects == []
    ensures client in st.closures && msg.from != StatusBroadcast && msg.hasMedia && download.Downloaded? ==>
              var name := AttachmentName(nowMs, Extension(download.mimetype));
              && |r.effects| >= 1 && r.effects[0] == WriteFile(name, download.data)
              && (write.Ok? <==> r.effects[1..] == [Emit(MessageEvent(st.closures[client].sessionId, msg.from,
                                                                      AttachmentLink(name), FormatLocalDate(localeText)))])
              && (write.Threw? ==> r.effects == [WriteFile(name, download.data)])
    ensures forall e :: e in r.effects && e.WriteFile? ==> Free(e.fileName, '/')
    ensures forall e :: e in r.effects ==> e.Emit? || e.WriteFile?
    ensures |r.effects| <= 2
  {
    if client !in st.closures || msg.from == StatusBroadcast then EventStep(st, [])
    else
      var id := st.closures[client].sessionId;
      var localDate := FormatLocalDate(localeText);
      if !msg.hasMedia then EventStep(st, [Emit(MessageEvent(id, msg.from, msg.body, localDate))])
      else match download
        case NullMedia => EventStep(st, [])
        case DownloadFailed => EventStep(st, [])
        case Downloaded(mimetype, data) =>
          var name := AttachmentName(nowMs, Extension(mimetype));
          var written := [WriteFile(name, data)];
          if write.Ok? then EventStep(st, written + [Emit(MessageEvent(id, msg.from, AttachmentLink(name), localDate))])
          else EventStep(st, written)
  }

  /** Anything that can happen to the process: a request to one of the
      three routes or an event on one client object, with the outcomes of
      the opaque calls it awaits. */
  datatype Input =
    | CreateSessionRequest(sessionId: Option<string>)
    | CloseSessionRequest(sessionId: Option<string>, destroy: Outcome)
    | SendMessageRequest(request: SendRequest, nowMs: nat, send: Outcome)
    | ClientReady(client: ClientRef, readyMs: nat)
    | ClientQr(client: ClientRef, qr: string)
    | ClientDisconnected(client: ClientRef, hasBrowser: bool, browserClose: Outcome)
    | ClientMessage(client: ClientRef, msg: Message, localeText: string, receivedMs: nat,
                    download: Download, write: Outcome)

  /** The state after one input. */
  function Apply(st: State, input: Input): State
    requires Valid(st)
  {
    match input
    case CreateSessionRequest(id) => CreateSessionRoute(st, id).state
    case CloseSessionRequest(id, destroy) => CloseSessionRoute(st, id, destroy).state
    case SendMessageRequest(req, nowMs, send) => SendMessageRoute(st, req, nowMs, send).state
    case ClientReady(c, nowMs) => OnReady(st, c, nowMs).state
    case ClientQr(c, qr) => OnQr(st, c, qr).state
    case ClientDisconnected(c, hasBrowser, browserClose) => OnDisconnected(st, c, hasBrowser, browserClose).state
    case ClientMessage(c, msg, localeText, nowMs, download, write) =>
      OnMessageCreate(st, c, msg, localeText, nowMs, download, write).state
  }

  /** The state after a sequence of inputs. Every reachable state is
      `Valid`: entries never share a client, and every entry's `token` is
      still the null captured at insertion, whatever `ready` events
      occurred. */
  function Run(st: State, inputs: seq<Input>): (r: State)
    requires Valid(st)
    ensures Valid(r)
    ensures forall id :: id in r.sessions ==> r.sessions[id].token == None
    decreases |inputs|
  {
    if inputs == [] then st else Run(Apply(st, inputs[0]), inputs[1..])
  }

  /** Creating an id twice: the second request is answered 400 with the
      duplicate error and changes nothing. */
  lemma CreateTwiceRejected(st: State, id: string)
    requires Valid(st) && id != ""
    ensures var first := CreateSessionRoute(st, Some(id));
            var second := CreateSessionRoute(first.state, Some(id));
            && second.reply == Reply(400, Error(AlreadyExists(id)))
            && second.state == first.state
  {
  }

  /** Closing a session twice: the first close (destroy succeeding)
      answers 200, the second 404. */
  lemma CloseTwice(st: State, id: string, secondDestroy: Outcome)
    requires Valid(st) && id in st.sessions && id != ""
    ensures var first := CloseSessionRoute(st, Some(id), Ok);
            var second := CloseSessionRoute(first.state, Some(id), secondDestroy);
            && first.reply.status == 200
            && second.reply == Reply(404, Error(NotFound(id)))
            && second.effects == []
  {
  }

  /** The `ready` listener fires once per client object: a second `ready`
      on the same client changes nothing, so the closure token is the one
      minted first. */
  lemma ReadyMintsOnce(st: State, client: ClientRef, firstMs: nat, laterMs: nat)
    requires Valid(st) && client in st.closures
    ensures var s1 := OnReady(st, client, firstMs).state;
            OnReady(s1, client, laterMs).state == s1
  {
  }

  /** The token minted by a client's `ready` listener lives only in its
      closure: after it fires, the session's map entry still holds null. */
  lemma ReadyTokenNotInEntry(st: State, client: ClientRef, nowMs: nat)
    requires Valid(st) && client in st.closures && st.closures[client].readyListening
    ensures var r := OnReady(st, client, nowMs).state;
            var id := st.closures[client].sessionId;
            && r.closures[client].token == Some(Sign(id, nowMs))
            && (id in r.sessions ==> r.sessions[id].token == None)
  {
  }

  /** A token minted for a registered session, presented to
      `/send-message` before it expires, sends exactly one message through
      that session's client to the normalised chat id; once expired it is
      answered 500 and nothing is sent. */
  lemma SendWithMintedToken(st: State, id: string, issuedMs: nat, nowMs: nat,
                            number: string, text: string, send: Outcome)
    requires Valid(st) && id in st.sessions && number != "" && text != ""
    ensures var r := SendMessageRoute(st, SendRequest(Some(number), Some(text), Some(Sign(id, issuedMs))), nowMs, send);
            && (Seconds(nowMs) < Seconds(issuedMs) + LifetimeSeconds ==>
                  && r.effects == [SendMessage(st.sessions[id].client, ChatId(number), text)]
                  && (r.reply.status == 200 <==> send.Ok?))
            && (Seconds(nowMs) >= Seconds(issuedMs) + LifetimeSeconds ==>
                  r == HttpStep(st, Reply(500, ErrorWithDetails(SendFailed, VerifyFailed(Expired))), []))
  {
    SignVerify(id, issuedMs, nowMs);
  }

  /** After a successful close, a still-valid token of that session is
      answered 404 and nothing is sent. */
  lemma SendAfterClose(st: State, id: string, issuedMs: nat, nowMs: nat,
                       number: string, text: string, send: Outcome)
    requires Valid(st) && id in st.sessions && id != "" && number != "" && text != ""
    requires Seconds(nowMs) < Seconds(issuedMs) + LifetimeSeconds
    ensures var closed := CloseSessionRoute(st, Some(id), Ok).state;
            var r := SendMessageRoute(closed, SendRequest(Some(number), Some(text), Some(Sign(id, issuedMs))), nowMs, send);
            r.reply == Reply(404, Error(NotFound(id))) && r.effects == []
  {
    SignVerify(id, issuedMs, nowMs);
  }

  /** The `disconnected` listener re-registers its session by id, without
      checking whether the map still holds that client: a late
      `disconnected` from the client of a session that has since been
      closed registers the session again. */
  lemma DisconnectAfterCloseReRegisters(st: State, id: string, hasBrowser: bool, browserClose: Outcome)
    requires Valid(st) && id in st.sessions && id != ""
    ensures var previous := st.sessions[id].client;
            var closed := CloseSessionRoute(st, Some(id), Ok).state;
            id !in closed.sessions && id in OnDisconnected(closed, previous, hasBrowser, browserClose).state.sessions
  {
  }
}
