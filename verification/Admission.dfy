/** Who gets a session, and that those who should do: the verdicts of the two sides decide, in every
    run of the handshake, which of its end states can be reached at all. */
module Admission {
  import opened Wrappers
  import opened Numbers
  import opened Framing
  import opened Handshake

  /** The reply the server's verdict calls for. */
  ghost function Reply<M(!new)>(p: Parties<M>): seq<Byte> {
    if p.serverAccepts(p.hello) then p.ack else p.rejection
  }

  // ---------------------------------------------------------------- what is decided stays decided

  /** Nothing reaches the server before the client has accepted its greeting. */
  ghost predicate GreetingDecides<M(!new)>(p: Parties<M>, s: State<M>) {
    && (s.client.AwaitingAck? || s.client.Connected? ==> p.clientAccepts(p.greeting))
    && (s.server.Starting? || s.server.AwaitingHello? ==>
          s.toServer.Rest() == [] || p.clientAccepts(p.greeting))
    && (s.server.InSession? ==> p.clientAccepts(p.greeting) && p.serverAccepts(p.hello))
  }

  /** What the session writes, in order. */
  ghost function Output<M(!new)>(p: Parties<M>, actions: seq<Action<M>>): seq<Byte> {
    if actions == [] then []
    else
      var before := actions[..|actions| - 1];
      Output(p, before) + WrittenBy(Execute(p, before), actions[|actions| - 1])
  }

  ghost function WrittenBy<M>(s: State<M>, action: Action<M>): seq<Byte> {
    if action.SessionWrites? && s.server.InSession? then action.bytes else []
  }

  /** What a client that waits for its reply can find: nothing yet, or the reply called for and then
      what the session has written; and all that a connected client can find is the latter. */
  ghost predicate ReplyDecides<M(!new)>(p: Parties<M>, s: State<M>, output: seq<Byte>) {
    && (s.server.Starting? || s.server.AwaitingHello? || s.client.AwaitingGreeting? ==> output == [])
    && (s.client.AwaitingGreeting? ==> s.toClient.Rest() == [] || s.toClient.Rest() == Frame(p.greeting))
    && (s.client.AwaitingAck? ==>
          || (s.toClient.Rest() == [] && output == [] && !s.server.InSession?)
          || s.toClient.Rest() == Frame(Reply(p)) + output)
    && (s.client.Connected? ==> p.isAck(Reply(p)) && s.toClient.Rest() == output)
  }

  /** A reader that finds a frame at the front of a link has found the one that was put there. */
  lemma FrontFrame(l: Link, payload: seq<Byte>, more: seq<Byte>, maxSize: nat)
    requires 1 <= |payload| <= maxSize < U32_MODULUS
    requires l.Rest() == Frame(payload) + more
    requires FirstFrame(l.buffer, maxSize).Some?
    ensures FirstFrame(l.buffer, maxSize) == Some(payload)
    ensures l.Drain(4 + |payload|).Rest() == more
  {
    ParseFrameIsStable(l.buffer, l.inflight + l.outbox, maxSize);
    ParseWrittenFrame(payload, more, maxSize);
    assert l.Drain(4 + |payload|).Rest() == l.Rest()[4 + |payload|..];
  }

  lemma StepKeepsGreeting<M(!new)>(p: Parties<M>, s: State<M>, output: seq<Byte>, action: Action<M>)
    requires p.Valid() && ToServerOk(p, s) && ReplyDecides(p, s, output) && GreetingDecides(p, s)
    ensures GreetingDecides(p, Next(p, s, action))
  {
    match action
    case PushToServer(k) => LinkMoves(s.toServer, k);
    case ServerFills(k) => LinkMoves(s.toServer, k);
    case ServerTakesHello =>
      if s.server.AwaitingHello? && FirstFrame(s.toServer.buffer, p.codec.maxSize).Some? {
        EmptyLinkHasNoFrame(s.toServer, p.codec.maxSize);
        OnlyFrame(s.toServer, p.hello, p.codec.maxSize);
      }
    case ClientTakesGreeting =>
      if s.client.AwaitingGreeting? && FirstFrame(s.toClient.buffer, p.codec.maxSize).Some? {
        EmptyLinkHasNoFrame(s.toClient, p.codec.maxSize);
        OnlyFrame(s.toClient, p.greeting, p.codec.maxSize);
      }
    case _ =>
  }

  lemma DecidingKeepsReply<M(!new)>(p: Parties<M>, s: State<M>, output: seq<Byte>)
    requires p.Valid() && ToServerOk(p, s) && ToClientOk(p, s) && ReplyDecides(p, s, output)
    ensures ReplyDecides(p, Next(p, s, ServerTakesHello), output)
  {
    if s.server.AwaitingHello? && FirstFrame(s.toServer.buffer, p.codec.maxSize).Some? {
      EmptyLinkHasNoFrame(s.toServer, p.codec.maxSize);
      OnlyFrame(s.toServer, p.hello, p.codec.maxSize);
      LinkWrites(s.toClient, Frame(Reply(p)));
      assert s.client.AwaitingAck? ==> [] + Frame(Reply(p)) == Frame(Reply(p)) + output;
    }
  }

  lemma GreetingKeepsReply<M(!new)>(p: Parties<M>, s: State<M>, output: seq<Byte>)
    requires p.Valid() && ToServerOk(p, s) && ReplyDecides(p, s, output)
    ensures ReplyDecides(p, Next(p, s, ClientTakesGreeting), output)
  {
    if s.client.AwaitingGreeting? && FirstFrame(s.toClient.buffer, p.codec.maxSize).Some? {
      EmptyLinkHasNoFrame(s.toClient, p.codec.maxSize);
      OnlyFrame(s.toClient, p.greeting, p.codec.maxSize);
      assert s.toClient.Drain(4 + |p.greeting|).Rest() == [];
    }
  }

  lemma TakingKeepsReply<M(!new)>(p: Parties<M>, s: State<M>, output: seq<Byte>)
    requires p.Valid() && ReplyDecides(p, s, output)
    ensures ReplyDecides(p, Next(p, s, ClientTakesReply), output)
  {
    if s.client.AwaitingAck? && FirstFrame(s.toClient.buffer, p.codec.maxSize).Some? {
      EmptyLinkHasNoFrame(s.toClient, p.codec.maxSize);
      FrontFrame(s.toClient, Reply(p), output, p.codec.maxSize);
    }
  }

  lemma WritingKeepsReply<M(!new)>(p: Parties<M>, s: State<M>, output: seq<Byte>, bytes: seq<Byte>)
    requires p.Valid() && ToServerOk(p, s) && ReplyDecides(p, s, output) && s.server.InSession?
    ensures ReplyDecides(p, Next(p, s, SessionWrites(bytes)), output + bytes)
  {
    LinkWrites(s.toClient, bytes);
    Regroup(Frame(Reply(p)), output, bytes);
  }

  lemma MovingKeepsReply<M(!new)>(p: Parties<M>, s: State<M>, action: Action<M>, output: seq<Byte>)
    requires ReplyDecides(p, s, output) && (action.PushToClient? || action.ClientFills?)
    ensures ReplyDecides(p, Next(p, s, action), output)
  {
    LinkMoves(s.toClient, action.k);
  }

  lemma StartingKeepsReply<M(!new)>(p: Parties<M>, s: State<M>, output: seq<Byte>)
    requires ToClientOk(p, s) && ReplyDecides(p, s, output)
    ensures ReplyDecides(p, Next(p, s, ServerGreets), output)
  {
    LinkWrites(s.toClient, Frame(p.greeting));
    assert [] + Frame(p.greeting) == Frame(p.greeting);
  }

  /** The actions that touch neither the link to the client nor its waiting. */
  lemma OthersKeepReply<M(!new)>(p: Parties<M>, s: State<M>, action: Action<M>, output: seq<Byte>)
    requires ReplyDecides(p, s, output)
    requires action.PushToServer? || action.ServerFills? || action.ServerFails? || action.SessionReads?
             || action.ClientSends? || action.ClientFails?
    ensures ReplyDecides(p, Next(p, s, action), output)
  {
  }

  lemma StepKeepsReply<M(!new)>(p: Parties<M>, s: State<M>, action: Action<M>, output: seq<Byte>)
    requires p.Valid() && ToServerOk(p, s) && ToClientOk(p, s) && ReplyDecides(p, s, output)
    ensures ReplyDecides(p, Next(p, s, action), output + WrittenBy(s, action))
  {
    var now := output + WrittenBy(s, action);
    if action.SessionWrites? && s.server.InSession? {
      WritingKeepsReply(p, s, output, action.bytes);
    } else {
      assert now == output;
      assert ReplyDecides(p, Next(p, s, action), output) by {
        match action
        case ServerGreets => StartingKeepsReply(p, s, output);
        case PushToClient(_) => MovingKeepsReply(p, s, action, output);
        case ClientFills(_) => MovingKeepsReply(p, s, action, output);
        case SessionWrites(_) =>
        case ServerTakesHello => DecidingKeepsReply(p, s, output);
        case ClientTakesGreeting => GreetingKeepsReply(p, s, output);
        case ClientTakesReply => TakingKeepsReply(p, s, output);
        case _ => OthersKeepReply(p, s, action, output);
      }
    }
  }

  lemma {:induction false} ReachableIsDecided<M(!new)>(p: Parties<M>, actions: seq<Action<M>>)
    requires p.Valid()
    ensures GreetingDecides(p, Execute(p, actions)) && ReplyDecides(p, Execute(p, actions), Output(p, actions))
  {
    if actions != [] {
      var before := actions[..|actions| - 1];
      ReachableIsDecided(p, before);
      ReachableOk(p, before);
      StepKeepsGreeting(p, Execute(p, before), Output(p, before), actions[|actions| - 1]);
      StepKeepsReply(p, Execute(p, before), actions[|actions| - 1], Output(p, before));
    }
  }

  /** Nobody gets further than the verdicts allow: in every reachable state a session means that both
      sides accepted each other, a client past the greeting has accepted it, and a connected client
      has taken as an acknowledgement the very reply the server's verdict called for. */
  lemma VerdictsAreHonoured<M(!new)>(p: Parties<M>, actions: seq<Action<M>>)
    requires p.Valid()
    ensures var s := Execute(p, actions);
            && (s.server.InSession? ==> p.serverAccepts(p.hello) && p.clientAccepts(p.greeting))
            && (s.client.AwaitingAck? || s.client.Connected? ==> p.clientAccepts(p.greeting))
            && (s.client.Connected? ==> p.isAck(if p.serverAccepts(p.hello) then p.ack else p.rejection))
  {
    ReachableIsDecided(p, actions);
  }

  /** The other direction of the hand-over: once connected, the client can still read all that the
      session has written, from the first byte on, and nothing else. */
  lemma RepliesAreKept<M(!new)>(p: Parties<M>, actions: seq<Action<M>>)
    requires p.Valid() && Execute(p, actions).client.Connected?
    ensures Execute(p, actions).toClient.Rest() == Output(p, actions)
  {
    ReachableIsDecided(p, actions);
  }

  // ---------------------------------------------------------------- a run that succeeds

  /** Bytes carried along a link, in pieces of any size. */
  datatype Move = Push(k: nat) | Fill(k: nat)

  /** The pieces add up: with `outbox` and `inflight` bytes on the way, the moves bring all of them to
      the reader, never more than there are and never more than one read takes. */
  ghost predicate AddUp(moves: seq<Move>, outbox: nat, inflight: nat) {
    if moves == [] then outbox == 0 && inflight == 0
    else
      match moves[0]
      case Push(k) => k <= outbox && AddUp(moves[1..], outbox - k, inflight + k)
      case Fill(k) => 0 < k <= CHUNK && k <= inflight && AddUp(moves[1..], outbox, inflight - k)
  }

  function ToServerMoves<M>(moves: seq<Move>): seq<Action<M>> {
    seq(|moves|, i requires 0 <= i < |moves| =>
      match moves[i] case Push(k) => PushToServer(k) case Fill(k) => ServerFills(k))
  }

  function ToClientMoves<M>(moves: seq<Move>): seq<Action<M>> {
    seq(|moves|, i requires 0 <= i < |moves| =>
      match moves[i] case Push(k) => PushToClient(k) case Fill(k) => ClientFills(k))
  }

  ghost function Resume<M(!new)>(p: Parties<M>, s: State<M>, actions: seq<Action<M>>): State<M>
    decreases |actions|
  {
    if actions == [] then s else Resume(p, Next(p, s, actions[0]), actions[1..])
  }

  lemma {:induction false} ExecuteResumes<M(!new)>(p: Parties<M>, before: seq<Action<M>>, after: seq<Action<M>>)
    ensures Execute(p, before + after) == Resume(p, Execute(p, before), after)
    decreases |after|
  {
    if after == [] {
      assert before + after == before;
    } else {
      assert before + after == (before + [after[0]]) + after[1..];
      ExecuteResumes(p, before + [after[0]], after[1..]);
      assert (before + [after[0]])[..|before|] == before;
    }
  }

  lemma {:induction false} ResumeJoins<M(!new)>(p: Parties<M>, s: State<M>, first: seq<Action<M>>, second: seq<Action<M>>)
    ensures Resume(p, s, first + second) == Resume(p, Resume(p, s, first), second)
    decreases |first|
  {
    if first == [] {
      assert first + second == second;
    } else {
      assert (first + second)[1..] == first[1..] + second;
      ResumeJoins(p, Next(p, s, first[0]), first[1..], second);
    }
  }

  /** A link whose bytes have all arrived. */
  function Arrived(l: Link): Link { Link([], [], l.Rest()) }

  lemma {:induction false} CarriedToServer<M(!new)>(p: Parties<M>, s: State<M>, moves: seq<Move>)
    requires s.server.AwaitingHello? && AddUp(moves, |s.toServer.outbox|, |s.toServer.inflight|)
    ensures Resume(p, s, ToServerMoves(moves)) == s.(toServer := Arrived(s.toServer))
    decreases |moves|
  {
    if moves == [] {
      assert s.toServer.Rest() == s.toServer.buffer;
    } else {
      var k := moves[0].k;
      LinkMoves(s.toServer, k);
      var next := Next(p, s, ToServerMoves(moves)[0]);
      CarriedToServer(p, next, moves[1..]);
      assert ToServerMoves<M>(moves)[1..] == ToServerMoves(moves[1..]);
    }
  }

  lemma {:induction false} CarriedToClient<M(!new)>(p: Parties<M>, s: State<M>, moves: seq<Move>)
    requires !s.client.ClientDown? && AddUp(moves, |s.toClient.outbox|, |s.toClient.inflight|)
    ensures Resume(p, s, ToClientMoves(moves)) == s.(toClient := Arrived(s.toClient))
    decreases |moves|
  {
    if moves == [] {
      assert s.toClient.Rest() == s.toClient.buffer;
    } else {
      var k := moves[0].k;
      LinkMoves(s.toClient, k);
      var next := Next(p, s, ToClientMoves(moves)[0]);
      CarriedToClient(p, next, moves[1..]);
      assert ToClientMoves<M>(moves)[1..] == ToClientMoves(moves[1..]);
    }
  }

  const NOTHING := Link([], [], [])

  /** A payload just written to an empty link. */
  function Written(payload: seq<Byte>): Link { Link(Frame(payload), [], []) }

  lemma TakesWrittenFrame(payload: seq<Byte>, maxSize: nat)
    requires 1 <= |payload| <= maxSize < U32_MODULUS
    ensures Arrived(Written(payload)) == Link([], [], Frame(payload))
    ensures FirstFrame(Frame(payload), maxSize) == Some(payload)
    ensures Frame(payload)[4 + |payload|..] == []
  {
    assert Written(payload).Rest() == Frame(payload);
    assert Frame(payload) + [] == Frame(payload);
    ParseWrittenFrame(payload, [], maxSize);
  }

  ghost function GreetingPhase<M>(g: seq<Move>): seq<Action<M>> {
    [ServerGreets] + (ToClientMoves(g) + [ClientTakesGreeting])
  }

  ghost function HelloPhase<M>(h: seq<Move>): seq<Action<M>> { ToServerMoves(h) + [ServerTakesHello] }

  ghost function ReplyPhase<M>(r: seq<Move>): seq<Action<M>> { ToClientMoves(r) + [ClientTakesReply] }

  lemma TakesGreeting<M(!new)>(p: Parties<M>)
    requires p.Valid() && p.clientAccepts(p.greeting)
    ensures Resume(p, State(AwaitingHello, AwaitingGreeting, NOTHING, Arrived(Written(p.greeting)), [], []), [ClientTakesGreeting])
         == State(AwaitingHello, AwaitingAck, Written(p.hello), NOTHING, [], [])
  {
    var arrived := State(AwaitingHello, AwaitingGreeting, NOTHING, Arrived(Written(p.greeting)), [], []);
    TakesWrittenFrame(p.greeting, p.codec.maxSize);
    assert Resume(p, arrived, [ClientTakesGreeting]) == Next(p, arrived, ClientTakesGreeting);
    assert NOTHING.Write(Frame(p.hello)) == Written(p.hello);
  }

  lemma Greets<M(!new)>(p: Parties<M>, g: seq<Move>)
    requires p.Valid() && p.clientAccepts(p.greeting) && AddUp(g, 4 + |p.greeting|, 0)
    ensures Resume(p, Initial(), GreetingPhase(g)) == State(AwaitingHello, AwaitingAck, Written(p.hello), NOTHING, [], [])
  {
    var greeted := State(AwaitingHello, AwaitingGreeting, NOTHING, Written(p.greeting), [], []);
    var arrives := ToClientMoves(g) + [ClientTakesGreeting];
    assert Resume(p, greeted, arrives) == State(AwaitingHello, AwaitingAck, Written(p.hello), NOTHING, [], []) by {
      ResumeJoins(p, greeted, ToClientMoves(g), [ClientTakesGreeting]);
      CarriedToClient(p, greeted, g);
      TakesGreeting(p);
    }
    assert Next(p, Initial(), ServerGreets) == greeted;
    assert GreetingPhase<M>(g)[1..] == arrives;
  }

  lemma Hears<M(!new)>(p: Parties<M>, h: seq<Move>)
    requires p.Valid() && AddUp(h, 4 + |p.hello|, 0)
    ensures Resume(p, State(AwaitingHello, AwaitingAck, Written(p.hello), NOTHING, [], []), HelloPhase(h))
         == State(if p.serverAccepts(p.hello) then InSession else ServerDown, AwaitingAck, NOTHING, Written(Reply(p)), [], [])
  {
    var s := State(AwaitingHello, AwaitingAck, Written(p.hello), NOTHING, [], []);
    var arrived := s.(toServer := Arrived(s.toServer));
    TakesWrittenFrame(p.hello, p.codec.maxSize);
    assert Resume(p, arrived, [ServerTakesHello]) == Next(p, arrived, ServerTakesHello);
    CarriedToServer(p, s, h);
    ResumeJoins(p, s, ToServerMoves(h), [ServerTakesHello]);
  }

  lemma IsAnswered<M(!new)>(p: Parties<M>, server: ServerPhase, r: seq<Move>)
    requires p.Valid() && AddUp(r, 4 + |Reply(p)|, 0)
    ensures var s := Resume(p, State(server, AwaitingAck, NOTHING, Written(Reply(p)), [], []), ReplyPhase(r));
            s == if p.isAck(Reply(p)) then State(server, Connected, NOTHING, NOTHING, [], [])
                 else State(server, ClientDown, NOTHING, Arrived(Written(Reply(p))), [], [])
  {
    var s := State(server, AwaitingAck, NOTHING, Written(Reply(p)), [], []);
    var arrived := s.(toClient := Arrived(s.toClient));
    TakesWrittenFrame(Reply(p), p.codec.maxSize);
    assert Resume(p, arrived, [ClientTakesReply]) == Next(p, arrived, ClientTakesReply);
    CarriedToClient(p, s, r);
    ResumeJoins(p, s, ToClientMoves(r), [ClientTakesReply]);
  }

  /** The undisturbed handshake, whatever the pieces in which its three frames travel: when the
      greeting is accepted, the server's verdict on the hello decides whether there is a session, and
      the client's verdict on the reply whether it is connected; no byte is left over. */
  lemma HandshakeRuns<M(!new)>(p: Parties<M>, g: seq<Move>, h: seq<Move>, r: seq<Move>)
    requires p.Valid() && p.clientAccepts(p.greeting)
    requires AddUp(g, 4 + |p.greeting|, 0) && AddUp(h, 4 + |p.hello|, 0) && AddUp(r, 4 + |Reply(p)|, 0)
    ensures var s := Execute(p, GreetingPhase(g) + HelloPhase(h) + ReplyPhase(r));
            && (if p.serverAccepts(p.hello) then s.server.InSession? else s.server.ServerDown?)
            && (if p.isAck(Reply(p)) then s.client.Connected? && s.toClient == NOTHING else s.client.ClientDown?)
            && s.toServer == NOTHING && s.sent == [] && s.seen == []
  {
    var first, second, third := GreetingPhase<M>(g), HelloPhase<M>(h), ReplyPhase<M>(r);
    Greets(p, g);
    Hears(p, h);
    IsAnswered(p, if p.serverAccepts(p.hello) then InSession else ServerDown, r);
    ResumeJoins(p, Initial(), first, second);
    ResumeJoins(p, Initial(), first + second, third);
    assert first + second + third == [] + (first + second + third);
    ExecuteResumes(p, [], first + second + third);
  }

  /** One way of carrying `n` bytes: pushed at once and read in chunks. */
  function Chunks(n: nat): (moves: seq<Move>)
    ensures AddUp(moves, 0, n)
  {
    if n == 0 then []
    else
      var k := if n < CHUNK then n else CHUNK;
      var more := Chunks(n - k);
      assert ([Fill(k)] + more)[1..] == more;
      [Fill(k)] + more
  }

  lemma ChunksAddUp(n: nat) returns (moves: seq<Move>)
    ensures AddUp(moves, n, 0)
  {
    moves := [Push(n)] + Chunks(n);
    assert moves[1..] == Chunks(n);
  }

  /** The run in which nothing goes wrong. */
  lemma SomeHandshake<M(!new)>(p: Parties<M>) returns (actions: seq<Action<M>>)
    requires p.Valid() && p.clientAccepts(p.greeting)
    ensures p.serverAccepts(p.hello) ==> Execute(p, actions).server.InSession?
    ensures p.isAck(Reply(p)) ==> Execute(p, actions).client.Connected?
  {
    var g := ChunksAddUp(4 + |p.greeting|);
    var h := ChunksAddUp(4 + |p.hello|);
    var r := ChunksAddUp(4 + |Reply(p)|);
    HandshakeRuns(p, g, h, r);
    actions := GreetingPhase(g) + HelloPhase(h) + ReplyPhase(r);
  }

  /** A session can come about exactly when each side accepts what the other sends. */
  lemma SessionExactlyWhenAccepted<M(!new)>(p: Parties<M>)
    requires p.Valid()
    ensures (exists actions :: Execute(p, actions).server.InSession?) <==>
              p.clientAccepts(p.greeting) && p.serverAccepts(p.hello)
  {
    forall actions | Execute(p, actions).server.InSession?
      ensures p.clientAccepts(p.greeting) && p.serverAccepts(p.hello)
    {
      VerdictsAreHonoured(p, actions);
    }
    if p.clientAccepts(p.greeting) {
      var actions := SomeHandshake(p);
    }
  }

  /** A client can get connected exactly when it accepts the greeting and takes the reply that the
      server's verdict calls for as an acknowledgement. */
  lemma ConnectedExactlyWhenAcknowledged<M(!new)>(p: Parties<M>)
    requires p.Valid()
    ensures (exists actions :: Execute(p, actions).client.Connected?) <==>
              && p.clientAccepts(p.greeting)
              && p.isAck(if p.serverAccepts(p.hello) then p.ack else p.rejection)
  {
    forall actions | Execute(p, actions).client.Connected?
      ensures p.clientAccepts(p.greeting) && p.isAck(Reply(p))
    {
      VerdictsAreHonoured(p, actions);
    }
    if p.clientAccepts(p.greeting) {
      var actions := SomeHandshake(p);
    }
  }

  /** A refused hello that is not mistaken for an acknowledgement leads nowhere. */
  lemma RefusedHelloLeadsNowhere<M(!new)>(p: Parties<M>, actions: seq<Action<M>>)
    requires p.Valid() && !p.serverAccepts(p.hello) && !p.isAck(p.rejection)
    ensures !Execute(p, actions).server.InSession? && !Execute(p, actions).client.Connected?
  {
    VerdictsAreHonoured(p, actions);
  }

  function Sends<M>(messages: seq<M>): seq<Action<M>> {
    seq(|messages|, i requires 0 <= i < |messages| => ClientSends(messages[i]))
  }

  lemma {:induction false} SendsAreSent<M(!new)>(p: Parties<M>, s: State<M>, messages: seq<M>)
    requires s.client.Connected? && Encodable(p, messages)
    ensures var after := Resume(p, s, Sends(messages));
            after == s.(sent := s.sent + messages, toServer := after.toServer)
            && after.toServer.inflight == s.toServer.inflight
    decreases |messages|
  {
    if messages == [] {
      assert s.sent + messages == s.sent;
    } else {
      assert p.codec.Encodable(messages[0]);
      var next := Next(p, s, Sends(messages)[0]);
      SendsAreSent(p, next, messages[1..]);
      assert Sends(messages)[1..] == Sends(messages[1..]);
      assert s.sent + messages == (s.sent + [messages[0]]) + messages[1..];
    }
  }

  /** A connected client is heard: whatever it goes on to send, the session can be brought to
      understand all of it, after all that was sent before and with nothing in between. */
  lemma ConnectedClientIsHeard<M(!new)>(p: Parties<M>, actions: seq<Action<M>>, messages: seq<M>)
    returns (more: seq<Action<M>>)
    requires p.Valid() && Encodable(p, messages)
    requires Execute(p, actions).server.InSession? && Execute(p, actions).client.Connected?
    ensures ParseStream(p.codec, Execute(p, actions + more).seen) == Stream(Execute(p, actions).sent + messages, None)
  {
    var s := Execute(p, actions);
    var sent := Resume(p, s, Sends(messages));
    SendsAreSent(p, s, messages);
    var delivery := [PushToServer(|sent.toServer.outbox|), SessionReads(|sent.toServer.inflight| + |sent.toServer.outbox|)];
    more := Sends(messages) + delivery;
    ResumeJoins(p, s, Sends(messages), delivery);
    ExecuteResumes(p, actions, more);
    ReadsAll(p, sent);
    EveryMessageIsHeard(p, actions + more);
  }

  lemma ReadsAll<M(!new)>(p: Parties<M>, s: State<M>)
    requires s.server.InSession?
    ensures var k, n := |s.toServer.outbox|, |s.toServer.inflight| + |s.toServer.outbox|;
            var after := Resume(p, s, [PushToServer(k), SessionReads(n)]);
            && after.server.InSession? && after.sent == s.sent
            && after.toServer.inflight == after.toServer.outbox == []
  {
    var k, n := |s.toServer.outbox|, |s.toServer.inflight| + |s.toServer.outbox|;
    var pushed := Next(p, s, PushToServer(k));
    var delivery: seq<Action<M>> := [PushToServer(k), SessionReads(n)];
    assert delivery[1..] == [SessionReads(n)];
    assert Resume(p, pushed, [SessionReads(n)]) == Next(p, pushed, SessionReads(n));
  }
}
