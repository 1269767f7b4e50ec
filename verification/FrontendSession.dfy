/** The identity each connection is given, and the client's session state. */
module FrontendSession {
  import opened Wrappers
  import opened Numbers
  import opened Protocol

  // ---------------------------------------------------------------- identity

  /** The engine's identity for its `connectionId`-th connection. */
  function ConnectionIdentity(clientId: U64, deployment: U64, connectionId: U64): Header {
    var doubled := SaturatingMul(connectionId, 2);
    var session: U64 := if doubled > 1 then doubled else 1;
    Header(CORE_PROTOCOL_VERSION, clientId, session, SaturatingAdd(session, 1), 0, 0, deployment)
  }

  /** The client's view of its own connection. */
  datatype State = State(
    client: U64, session: U64, epoch: U64, revision: U64, deployment: Option<U64>, nextSequence: U64)

  datatype HandshakeError = ProtocolMismatch | InvalidIdentity

  function ValidateHandshake(serverVersion: nat, requestedClient: U64, sessionIdBase: U64): Result<State, HandshakeError> {
    if serverVersion != CORE_PROTOCOL_VERSION then Failure(ProtocolMismatch)
    else if requestedClient == 0 || sessionIdBase == 0 then Failure(InvalidIdentity)
    else Success(State(requestedClient, sessionIdBase, SaturatingAdd(sessionIdBase, 1), 0, None, 1))
  }

  datatype Rejection = EngineRejected | IdentityMismatch | StaleEpoch | DeploymentChanged

  /** `observe_engine`: the state after an accepted message, or why the message is refused. */
  function Observe(s: State, message: EngineMessage): Result<State, Rejection> {
    if message.ProtocolRejected? then Failure(EngineRejected)
    else
      var h := message.header;
      if h.protocolVersion != CORE_PROTOCOL_VERSION || h.client != s.client || h.session != s.session then
        Failure(IdentityMismatch)
      else if h.epoch != s.epoch then Failure(StaleEpoch)
      else if s.deployment.Some? && s.deployment.value != h.deployment then Failure(DeploymentChanged)
      else Success(s.(deployment := Some(h.deployment), revision := h.revision))
  }

  /** `prepare`: the outbound message and the state after it. */
  function Prepare(s: State, body: Body): (FrontendMessage, State) {
    var deployment: U64 := if s.deployment.Some? then s.deployment.value else 1;
    (FrontendMessage(
       Header(CORE_PROTOCOL_VERSION, s.client, s.session, s.epoch, s.nextSequence, s.revision, deployment), body),
     s.(nextSequence := SaturatingAdd(s.nextSequence, 1)))
  }

  /** The two ends derive the same client, session and epoch, and the client accepts the engine's
      own header as its first message. */
  lemma BothEndsAgree(clientId: U64, deployment: U64, connectionId: U64)
    requires clientId != 0
    ensures var engine := ConnectionIdentity(clientId, deployment, connectionId);
            var client := ValidateHandshake(CORE_PROTOCOL_VERSION, clientId, engine.session);
            && client.Success?
            && client.value.client == engine.client
            && client.value.session == engine.session
            && client.value.epoch == engine.epoch
            && engine.protocolVersion == CORE_PROTOCOL_VERSION && engine.deployment == deployment
            && engine.sequence == 0 && engine.revision == 0
            && Observe(client.value, SessionOpened(engine))
               == Success(client.value.(deployment := Some(deployment)))
  {
    assert SaturatingMul(connectionId, 2) >= 0;
  }

  /** What a client refuses: another version first, and then a client id or a session id of zero. What it accepts
      is a fresh session of that client, one epoch after the session id. */
  lemma HandshakeAccepts(serverVersion: nat, requestedClient: U64, sessionIdBase: U64)
    ensures var r := ValidateHandshake(serverVersion, requestedClient, sessionIdBase);
            && (r == Failure(ProtocolMismatch) <==> serverVersion != CORE_PROTOCOL_VERSION)
            && (r == Failure(InvalidIdentity) <==>
                  serverVersion == CORE_PROTOCOL_VERSION && (requestedClient == 0 || sessionIdBase == 0))
            && (r.Success? ==>
                  && Fresh(r.value) && r.value.client == requestedClient && r.value.session == sessionIdBase
                  && (r.value.epoch == sessionIdBase + 1 || r.value.epoch == sessionIdBase == U64_MAX))
  {
  }

  /** Different connections share a session id exactly when both ids have saturated, at 2^63. */
  lemma SessionsCollideOnlyWhenSaturated(clientId: U64, deployment: U64, a: U64, b: U64)
    requires a != b
    ensures ConnectionIdentity(clientId, deployment, a).session == ConnectionIdentity(clientId, deployment, b).session
        <==> a >= 0x8000_0000_0000_0000 && b >= 0x8000_0000_0000_0000
  {
    assert a * 2 == a + a && b * 2 == b + b;
  }

  // ---------------------------------------------------------------- runs

  datatype Event = Outbound(body: Body) | Inbound(message: EngineMessage)

  function Handle(s: State, event: Event): State {
    match event
    case Outbound(body) => Prepare(s, body).1
    case Inbound(message) => match Observe(s, message) case Success(next) => next case Failure(_) => s
  }

  function After(s: State, events: seq<Event>): State {
    if events == [] then s else Handle(After(s, events[..|events| - 1]), events[|events| - 1])
  }

  function OutboundCount(events: seq<Event>): nat {
    if events == [] then 0
    else OutboundCount(events[..|events| - 1]) + if events[|events| - 1].Outbound? then 1 else 0
  }

  /** The header of the last engine message accepted in a run. */
  function LastAccepted(s: State, events: seq<Event>): Option<Header> {
    if events == [] then None
    else
      var before := events[..|events| - 1];
      match events[|events| - 1]
      case Inbound(message) =>
        if Observe(After(s, before), message).Success? then Some(message.header) else LastAccepted(s, before)
      case Outbound(_) => LastAccepted(s, before)
  }

  /** A fresh session, as the handshake leaves it. */
  predicate Fresh(s: State) {
    s.revision == 0 && s.deployment == None && s.nextSequence == 1
  }

  /** Over a whole connection: the identity never changes, the sequence counts the messages prepared
      (up to saturation), and revision and deployment are those of the last accepted message. */
  lemma {:induction false} SessionHistory(s: State, events: seq<Event>)
    requires Fresh(s)
    ensures var now := After(s, events);
            var last := LastAccepted(s, events);
            && now.client == s.client && now.session == s.session && now.epoch == s.epoch
            && now.nextSequence == (if OutboundCount(events) < U64_MAX then OutboundCount(events) + 1 else U64_MAX)
            && now.revision == (if last.Some? then last.value.revision else 0)
            && now.deployment == (if last.Some? then Some(last.value.deployment) else None)
            && (last.Some? ==>
                  && last.value.protocolVersion == CORE_PROTOCOL_VERSION
                  && last.value.client == s.client && last.value.session == s.session && last.value.epoch == s.epoch)
  {
    if events != [] {
      SessionHistory(s, events[..|events| - 1]);
    }
  }

  /** After any history a message is accepted exactly when it is of this version, client, session and
      epoch and of the deployment of the messages accepted before. */
  lemma AcceptedExactly(s: State, events: seq<Event>, message: EngineMessage)
    requires Fresh(s)
    ensures var last := LastAccepted(s, events);
            Observe(After(s, events), message).Success? <==>
              && !message.ProtocolRejected?
              && message.header.protocolVersion == CORE_PROTOCOL_VERSION
              && message.header.client == s.client && message.header.session == s.session
              && message.header.epoch == s.epoch
              && (last.Some? ==> message.header.deployment == last.value.deployment)
  {
    SessionHistory(s, events);
  }

  /** The deployment is captured once: no later run replaces it. */
  lemma {:induction false} DeploymentIsCapturedOnce(s: State, events: seq<Event>)
    requires s.deployment.Some?
    ensures After(s, events).deployment == s.deployment
  {
    if events != [] {
      DeploymentIsCapturedOnce(s, events[..|events| - 1]);
    }
  }

  /** The k-th message prepared on a connection carries the connection's identity, sequence number k
      (as long as k fits in 64 bits), the protocol version, and the last accepted revision and deployment
      (before any, revision 0 and deployment 1). */
  lemma PreparedHeaders(s: State, events: seq<Event>, body: Body)
    requires Fresh(s)
    ensures var message := Prepare(After(s, events), body).0;
            var last := LastAccepted(s, events);
            && message.body == body
            && message.header.client == s.client && message.header.session == s.session && message.header.epoch == s.epoch
            && message.header.sequence == (if OutboundCount(events) < U64_MAX then OutboundCount(events) + 1 else U64_MAX)
            && message.header.protocolVersion == CORE_PROTOCOL_VERSION
            && message.header.revision == (if last.Some? then last.value.revision else 0)
            && message.header.deployment == (if last.Some? then last.value.deployment else 1)
  {
    SessionHistory(s, events);
  }

  // ---------------------------------------------------------------- the object

  class Session {
    var client: U64
    var session: U64
    var epoch: U64
    var revision: U64
    var deployment: Option<U64>
    var nextSequence: U64

    function Model(): State
      reads this
    {
      State(client, session, epoch, revision, deployment, nextSequence)
    }

    constructor (state: State)
      ensures Model() == state.(nextSequence := 1)
    {
      client, session, epoch := state.client, state.session, state.epoch;
      revision, deployment, nextSequence := state.revision, state.deployment, 1;
    }

    /** A refused message leaves the session as it was. */
    method ObserveEngine(message: EngineMessage) returns (r: Result<(), Rejection>)
      modifies this
      ensures match Observe(old(Model()), message)
              case Success(next) => r == Success(()) && Model() == next
              case Failure(why) => r == Failure(why) && Model() == old(Model())
    {
      if message.ProtocolRejected? {
        return Failure(EngineRejected);
      }
      var header := message.header;
      if header.protocolVersion != CORE_PROTOCOL_VERSION || header.client != client || header.session != session {
        return Failure(IdentityMismatch);
      }
      if header.epoch != epoch {
        return Failure(StaleEpoch);
      }
      if deployment.None? {
        deployment := Some(header.deployment);
      } else if deployment.value != header.deployment {
        return Failure(DeploymentChanged);
      }
      revision := header.revision;
      r := Success(());
    }

    method PrepareMessage(message: FrontendMessage) returns (r: FrontendMessage)
      modifies this
      ensures (r, Model()) == Prepare(old(Model()), message.body)
    {
      var current := if deployment.Some? then deployment.value else 1;
      var header := Header(CORE_PROTOCOL_VERSION, client, session, epoch, nextSequence, revision, current);
      nextSequence := SaturatingAdd(nextSequence, 1);
      r := FrontendMessage(header, message.body);
    }
  }
}
