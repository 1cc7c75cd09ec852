/**
 One session handle (whatsappSession.js): the session id, the protocol
 client it owns, and the access token, which stays null until the
 client's first `ready` event. The `ready` listener is registered with
 `once`, so it fires at most once for the life of the client object; a
 disconnection destroys and re-initialises that same client object, so a
 reconnect never mints a new token.
 */
module WhatsAppSession {
  import opened Common
  import opened Tokens

  /** A handle; `readyListening` records whether the once-only `ready`
      listener is still registered on the client. */
  datatype Handle = Handle(sessionId: string, client: ClientRef, token: Option<Token>, readyListening: bool)

  /** The client events the handle listens to. */
  datatype ClientEvent =
    | Ready(nowMs: nat)
    | Qr(code: string)
    | Disconnected(destroy: Outcome)

  /** A handle after one step, with the effects the step performed. */
  datatype Step = Step(handle: Handle, effects: seq<Effect>)

  /** The token a handle holds is minted for its own session with the
      one-hour lifetime, and the `ready` listener is still registered
      exactly when no token has been minted yet. */
  predicate Valid(h: Handle) {
    && (h.readyListening <==> h.token.None?)
    && (h.token.Some? ==>
          && h.token.value.Signed?
          && h.token.value.claims.sessionId == h.sessionId
          && h.token.value.claims.exp == h.token.value.claims.iat + LifetimeSeconds)
  }

  /** `new WhatsAppSession(sessionId)` with `client` as the freshly
      constructed client: the listeners are registered and the client is
      initialised. */
  function New(sessionId: string, client: ClientRef): (s: Step)
    ensures Valid(s.handle)
    ensures s.handle.sessionId == sessionId && s.handle.client == client
    ensures s.handle.token == None
    ensures s.effects == [Initialize(client)]
  {
    Step(Handle(sessionId, client, None, true), [Initialize(client)])
  }

  /** The `ready` listener (registered with `once`). */
  function OnReady(h: Handle, nowMs: nat): (s: Step)
    requires Valid(h)
    ensures Valid(s.handle) && s.effects == []
    ensures s.handle.sessionId == h.sessionId && s.handle.client == h.client
    ensures h.token.Some? ==> s.handle == h
    ensures h.token.None? ==> s.handle.token == Some(Sign(h.sessionId, nowMs))
  {
    if h.readyListening then Step(h.(token := Some(Sign(h.sessionId, nowMs)), readyListening := false), [])
    else Step(h, [])
  }

  /** The `qr` listener only prints the challenge. */
  function OnQr(h: Handle, code: string): (s: Step)
    ensures s.handle == h && s.effects == []
  {
    Step(h, [])
  }

  /** The `disconnected` listener: destroy the client, then initialise the
      same client object again. When `destroy` rejects, the awaiting
      listener stops there and the client is not re-initialised. */
  function OnDisconnected(h: Handle, destroy: Outcome): (s: Step)
    ensures s.handle == h
    ensures |s.effects| >= 1 && s.effects[0] == Destroy(h.client)
    ensures destroy.Ok? <==> s.effects == [Destroy(h.client), Initialize(h.client)]
    ensures destroy.Threw? ==> s.effects == [Destroy(h.client)]
  {
    if destroy.Ok? then Step(h, [Destroy(h.client), Initialize(h.client)])
    else Step(h, [Destroy(h.client)])
  }

  /** Dispatch one client event to its listener. */
  function OnEvent(h: Handle, ev: ClientEvent): Step
    requires Valid(h)
  {
    match ev
    case Ready(nowMs) => OnReady(h, nowMs)
    case Qr(code) => OnQr(h, code)
    case Disconnected(destroy) => OnDisconnected(h, destroy)
  }

  /** The handle after a sequence of client events. */
  function Run(h: Handle, evs: seq<ClientEvent>): (r: Handle)
    requires Valid(h)
    ensures Valid(r)
    decreases |evs|
  {
    if evs == [] then h else Run(OnEvent(h, evs[0]).handle, evs[1..])
  }

  /** `getToken()`: the current token, which is bound to this handle's
      session and expires one hour after issue. */
  function GetToken(h: Handle): (t: Option<Token>)
    requires Valid(h)
    ensures t == h.token
    ensures t.Some? ==> t.value.Signed? && t.value.claims.sessionId == h.sessionId
    ensures t.Some? ==> t.value.claims.exp == t.value.claims.iat + LifetimeSeconds
  {
    h.token
  }

  /** `getClient()`: the client object the handle was constructed with. */
  function GetClient(h: Handle): (c: ClientRef)
    ensures c == h.client
  {
    h.client
  }

  /** Clock reading of the first `ready` event of a sequence, if any:
      the reference for which event mints the token. */
  function FirstReady(evs: seq<ClientEvent>): Option<nat> {
    if evs == [] then None
    else if evs[0].Ready? then Some(evs[0].nowMs)
    else FirstReady(evs[1..])
  }

  /** Whatever happens to a handle, it keeps its session id and its client
      object, and once it holds a token that token is never replaced,
      neither by later `ready` events nor by reconnects. */
  lemma {:induction false} RunKeepsIdentityAndToken(h: Handle, evs: seq<ClientEvent>)
    requires Valid(h)
    ensures Run(h, evs).sessionId == h.sessionId && Run(h, evs).client == h.client
    ensures h.token.Some? ==> Run(h, evs).token == h.token
    decreases |evs|
  {
    if evs != [] {
      RunKeepsIdentityAndToken(OnEvent(h, evs[0]).handle, evs[1..]);
    }
  }

  /** `getClient()` returns the same client object whatever events the
      handle has seen: a reconnect re-initialises that object rather than
      constructing a new one. */
  lemma {:induction false} ClientIsStable(h: Handle, evs: seq<ClientEvent>)
    requires Valid(h)
    ensures GetClient(Run(h, evs)) == GetClient(h)
  {
    RunKeepsIdentityAndToken(h, evs);
  }

  /** Starting from a new handle, the token after any event sequence is
      exactly the one minted at the first `ready` event, or null if there
      was none. */
  lemma {:induction false} TokenIsMintedAtFirstReady(h: Handle, evs: seq<ClientEvent>)
    requires Valid(h) && h.token.None?
    ensures Run(h, evs).token == match FirstReady(evs)
                                 case None => None
                                 case Some(t) => Some(Sign(h.sessionId, t))
    decreases |evs|
  {
    if evs != [] {
      var next := OnEvent(h, evs[0]).handle;
      if evs[0].Ready? {
        RunKeepsIdentityAndToken(next, evs[1..]);
      } else {
        TokenIsMintedAtFirstReady(next, evs[1..]);
      }
    }
  }

  /** The token of a new handle, once minted by `ready` at `readyMs`,
      authenticates its own session until it expires one hour later. */
  lemma HandleTokenVerifies(sessionId: string, client: ClientRef, readyMs: nat, nowMs: nat)
    ensures var h := OnReady(New(sessionId, client).handle, readyMs).handle;
            var r := Verify(GetToken(h).value, nowMs);
            Seconds(nowMs) < Seconds(readyMs) + LifetimeSeconds <==> r.Success? && r.value.sessionId == sessionId
  {
    SignVerify(sessionId, readyMs, nowMs);
  }
}
