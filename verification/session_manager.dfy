/**
 The session manager (sessionManager.js): a map from session id to
 session handle with create, get and delete. Client objects are drawn
 from a counter, so a newly constructed handle's client is one no
 existing handle holds.
 */
module SessionManager {
  import opened Common
  import WS = WhatsAppSession

  /** The manager's state: its sessions map and the next client identity
      a constructor will use. */
  datatype Manager = Manager(sessions: map<string, WS.Handle>, nextClient: ClientRef)

  /** Result of `createSession`: the manager afterwards, the new handle or
      the error thrown, and the effects of constructing the handle. */
  datatype Created = Created(manager: Manager, result: Result<WS.Handle, string>, effects: seq<Effect>)

  /** Every stored handle is keyed by its own session id and is a valid
      handle, and no two handles share a client object (all clients were
      drawn before `nextClient`). */
  predicate Valid(m: Manager) {
    && (forall id :: id in m.sessions ==> m.sessions[id].sessionId == id)
    && (forall id :: id in m.sessions ==> WS.Valid(m.sessions[id]))
    && (forall id :: id in m.sessions ==> m.sessions[id].client < m.nextClient)
    && (forall a, b :: a in m.sessions && b in m.sessions && a != b ==> m.sessions[a].client != m.sessions[b].client)
  }

  /** `new SessionManager()`. */
  function Empty(): (m: Manager)
    ensures Valid(m) && m.sessions == map[]
  {
    Manager(map[], 0)
  }

  /** `createSession(sessionId)`: throws for an id already present, before
      any handle is constructed; otherwise constructs a handle around a
      fresh client and stores it under the id. */
  function CreateSession(m: Manager, sessionId: string): (c: Created)
    requires Valid(m)
    ensures Valid(c.manager)
    ensures c.result.Failure? <==> sessionId in m.sessions
    ensures c.result.Failure? ==> c.manager == m && c.effects == [] && c.result.error == AlreadyExists(sessionId)
    ensures c.result.Success? ==>
              && c.manager.sessions == m.sessions[sessionId := c.result.value]
              && c.result.value.sessionId == sessionId
              && c.result.value.token.None?
              && (forall id :: id in m.sessions ==> m.sessions[id].client != c.result.value.client)
              && c.effects == [Initialize(c.result.value.client)]
  {
    if sessionId in m.sessions then Created(m, Failure(AlreadyExists(sessionId)), [])
    else
      var step := WS.New(sessionId, m.nextClient);
      Created(Manager(m.sessions[sessionId := step.handle], m.nextClient + 1), Success(step.handle), step.effects)
  }

  /** `getSession(sessionId)`: the stored handle, or undefined. */
  function GetSession(m: Manager, sessionId: string): (r: Option<WS.Handle>)
    ensures r.Some? <==> sessionId in m.sessions
    ensures r.Some? ==> r.value == m.sessions[sessionId]
  {
    if sessionId in m.sessions then Some(m.sessions[sessionId]) else None
  }

  /** `deleteSession(sessionId)`: removes that key and no other; nothing
      happens for an absent id. The handle's client is not destroyed. */
  function DeleteSession(m: Manager, sessionId: string): (r: Manager)
    requires Valid(m)
    ensures Valid(r)
    ensures r.sessions.Keys == m.sessions.Keys - {sessionId}
    ensures forall id :: id in r.sessions ==> r.sessions[id] == m.sessions[id]
    ensures sessionId !in m.sessions ==> r == m
  {
    if sessionId in m.sessions then Manager(m.sessions - {sessionId}, m.nextClient) else m
  }

  /** A client event reaching a registered handle updates that handle in
      place; an id without a handle is left alone. */
  function Deliver(m: Manager, sessionId: string, ev: WS.ClientEvent): (r: Manager)
    requires Valid(m)
    ensures Valid(r)
    ensures r.sessions.Keys == m.sessions.Keys
    ensures forall id :: id in m.sessions && id != sessionId ==> r.sessions[id] == m.sessions[id]
    ensures sessionId in m.sessions ==> r.sessions[sessionId] == WS.Run(m.sessions[sessionId], [ev])
    ensures sessionId !in m.sessions ==> r == m
  {
    if sessionId in m.sessions then
      var h := WS.OnEvent(m.sessions[sessionId], ev).handle;
      WS.RunKeepsIdentityAndToken(m.sessions[sessionId], [ev]);
      assert WS.Run(m.sessions[sessionId], [ev]) == WS.Run(h, []);
      Manager(m.sessions[sessionId := h], m.nextClient)
    else m
  }

  /** The manager after delivering each event of `evs` to one session. */
  function DeliverAll(m: Manager, sessionId: string, evs: seq<WS.ClientEvent>): (r: Manager)
    requires Valid(m)
    ensures Valid(r)
    decreases |evs|
  {
    if evs == [] then m else DeliverAll(Deliver(m, sessionId, evs[0]), sessionId, evs[1..])
  }

  /** Events delivered through the manager act on the stored handle exactly
      as they act on the handle alone: the registered id ends up holding
      the handle `WS.Run` computes, and every other entry is untouched. */
  lemma {:induction false} DeliverAllRuns(m: Manager, sessionId: string, evs: seq<WS.ClientEvent>)
    requires Valid(m)
    ensures DeliverAll(m, sessionId, evs).sessions.Keys == m.sessions.Keys
    ensures sessionId in m.sessions ==> DeliverAll(m, sessionId, evs).sessions[sessionId] == WS.Run(m.sessions[sessionId], evs)
    ensures forall id :: id in m.sessions && id != sessionId ==> DeliverAll(m, sessionId, evs).sessions[id] == m.sessions[id]
    decreases |evs|
  {
    if evs != [] {
      var m1 := Deliver(m, sessionId, evs[0]);
      DeliverAllRuns(m1, sessionId, evs[1..]);
      if sessionId in m.sessions {
        var h := m.sessions[sessionId];
        assert WS.Run(h, [evs[0]]) == WS.OnEvent(h, evs[0]).handle;
        assert WS.Run(h, evs) == WS.Run(WS.OnEvent(h, evs[0]).handle, evs[1..]);
      }
    }
  }

  /** A created session is the one `getSession` then returns, and exactly
      one key was added. */
  lemma CreateThenGet(m: Manager, sessionId: string)
    requires Valid(m) && sessionId !in m.sessions
    ensures var c := CreateSession(m, sessionId);
            && c.result.Success?
            && GetSession(c.manager, sessionId) == Some(c.result.value)
            && c.manager.sessions.Keys == m.sessions.Keys + {sessionId}
            && |c.manager.sessions| == |m.sessions| + 1
  {
  }

  /** Creating the same id twice: the second call throws and the number
      of sessions does not change. */
  lemma CreateTwice(m: Manager, sessionId: string)
    requires Valid(m)
    ensures var c1 := CreateSession(m, sessionId);
            var c2 := CreateSession(c1.manager, sessionId);
            c2.result.Failure? && c2.manager == c1.manager
  {
  }

  /** After `deleteSession(id)`, `createSession(id)` succeeds again. */
  lemma DeleteThenCreate(m: Manager, sessionId: string)
    requires Valid(m)
    ensures CreateSession(DeleteSession(m, sessionId), sessionId).result.Success?
  {
  }

  /** The manager after creating each id of `ids` in turn. */
  function CreateAll(m: Manager, ids: seq<string>): (r: Manager)
    requires Valid(m)
    ensures Valid(r)
    decreases |ids|
  {
    if ids == [] then m else CreateAll(CreateSession(m, ids[0]).manager, ids[1..])
  }

  /** The ids occurring in a sequence. */
  function Elements(ids: seq<string>): set<string> {
    if ids == [] then {} else {ids[0]} + Elements(ids[1..])
  }

  /** Creating distinct fresh ids one after another registers exactly
      those ids in addition to the existing ones. */
  lemma {:induction false} CreateAllRegisters(m: Manager, ids: seq<string>)
    requires Valid(m)
    requires forall i, j :: 0 <= i < j < |ids| ==> ids[i] != ids[j]
    requires forall i :: 0 <= i < |ids| ==> ids[i] !in m.sessions
    ensures CreateAll(m, ids).sessions.Keys == m.sessions.Keys + Elements(ids)
    decreases |ids|
  {
    if ids != [] {
      var m1 := CreateSession(m, ids[0]).manager;
      CreateFresh(m, ids[0]);
      DistinctTail(m, m1, ids);
      CreateAllRegisters(m1, ids[1..]);
    }
  }

  /** n creates of distinct fresh ids give exactly n new entries: none of
      them interferes with another. */
  lemma {:induction false} CreateAllCount(m: Manager, ids: seq<string>)
    requires Valid(m)
    requires forall i, j :: 0 <= i < j < |ids| ==> ids[i] != ids[j]
    requires forall i :: 0 <= i < |ids| ==> ids[i] !in m.sessions
    ensures |CreateAll(m, ids).sessions| == |m.sessions| + |ids|
    decreases |ids|
  {
    if ids != [] {
      var m1 := CreateSession(m, ids[0]).manager;
      CreateFresh(m, ids[0]);
      DistinctTail(m, m1, ids);
      CreateAllCount(m1, ids[1..]);
    }
  }

  /** Creating any ids, fresh or not, never alters an existing session. */
  lemma {:induction false} CreateAllKeepsExisting(m: Manager, ids: seq<string>)
    requires Valid(m)
    ensures forall id :: id in m.sessions ==> id in CreateAll(m, ids).sessions
    ensures forall id :: id in m.sessions ==> CreateAll(m, ids).sessions[id] == m.sessions[id]
    decreases |ids|
  {
    if ids != [] {
      var m1 := CreateSession(m, ids[0]).manager;
      CreateAllKeepsExisting(m1, ids[1..]);
      assert forall id :: id in m.sessions ==> id in m1.sessions && m1.sessions[id] == m.sessions[id];
    }
  }

  /** One fresh create adds exactly its key and keeps every other entry. */
  lemma CreateFresh(m: Manager, sessionId: string)
    requires Valid(m) && sessionId !in m.sessions
    ensures var m1 := CreateSession(m, sessionId).manager;
            && m1.sessions.Keys == m.sessions.Keys + {sessionId}
            && |m1.sessions| == |m.sessions| + 1
            && forall id :: id in m.sessions ==> m1.sessions[id] == m.sessions[id]
  {
  }

  /** The rest of a sequence of distinct ids is still distinct and fresh
      after its head has been created. */
  lemma DistinctTail(m: Manager, m1: Manager, ids: seq<string>)
    requires |ids| > 0 && m1.sessions.Keys == m.sessions.Keys + {ids[0]}
    requires forall i, j :: 0 <= i < j < |ids| ==> ids[i] != ids[j]
    requires forall i :: 0 <= i < |ids| ==> ids[i] !in m.sessions
    ensures forall i, j :: 0 <= i < j < |ids[1..]| ==> ids[1..][i] != ids[1..][j]
    ensures forall i :: 0 <= i < |ids[1..]| ==> ids[1..][i] !in m1.sessions
  {
    forall i | 0 <= i < |ids[1..]| ensures ids[1..][i] !in m1.sessions {
      assert ids[1..][i] == ids[i + 1];
    }
  }
}
