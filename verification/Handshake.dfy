/** The two-party handshake as a byte-level state machine. Each direction of the pipe has bytes its
    writer still has to push, bytes in flight, and bytes in its reader's buffer. Every interleaving
    and every chunking is a sequence of actions; an action that is not enabled does nothing.

    The server reads the `ClientHello` through its buffer and then hands the same reader to the
    session loop, whose `read_message` ignores that buffer. The main theorem says nothing is lost. */
module Handshake {
  import opened Wrappers
  import opened Numbers
  import opened Framing

  datatype Link = Link(outbox: seq<Byte>, inflight: seq<Byte>, buffer: seq<Byte>)
  {
    /** Everything written and not yet taken by the reading side. */
    function Rest(): seq<Byte> { buffer + (inflight + outbox) }

    function Write(bytes: seq<Byte>): Link { this.(outbox := outbox + bytes) }

    function Push(k: nat): Link {
      if k <= |outbox| then Link(outbox[k..], inflight + outbox[..k], buffer) else this
    }

    /** One buffered read of `k` bytes. */
    function Fill(k: nat): Link {
      if 0 < k <= CHUNK && k <= |inflight| then Link(outbox, inflight[k..], buffer + inflight[..k]) else this
    }

    function Drain(n: nat): Link
      requires n <= |buffer|
    {
      this.(buffer := buffer[n..])
    }
  }

  datatype ServerPhase = Starting | AwaitingHello | InSession | ServerDown
  datatype ClientPhase = AwaitingGreeting | AwaitingAck | Connected | ClientDown

  /** The payloads of the four handshake messages and the two sides' verdicts on what they receive
      (version and identity checks, and whether a reply decodes as an acknowledgement). */
  datatype Parties<!M(!new)> = Parties(
    codec: Codec<M>,
    greeting: seq<Byte>, hello: seq<Byte>, ack: seq<Byte>, rejection: seq<Byte>,
    clientAccepts: seq<Byte> -> bool, serverAccepts: seq<Byte> -> bool, isAck: seq<Byte> -> bool)
  {
    ghost predicate Valid() {
      && codec.Valid()
      && forall p :: p in {greeting, hello, ack, rejection} ==> 1 <= |p| <= codec.maxSize
    }
  }

  datatype State<M> = State(
    server: ServerPhase, client: ClientPhase, toServer: Link, toClient: Link,
    sent: seq<M>, seen: seq<Byte>)

  datatype Action<M> =
    | ServerGreets
    | PushToServer(k: nat)
    | PushToClient(k: nat)
    | ServerFills(k: nat)
    | ServerTakesHello
    | ServerFails
    | SessionReads(k: nat)
    | SessionWrites(bytes: seq<Byte>)
    | ClientFills(k: nat)
    | ClientTakesGreeting
    | ClientTakesReply
    | ClientSends(m: M)
    | ClientFails

  function Initial<M>(): State<M> {
    State(Starting, AwaitingGreeting, Link([], [], []), Link([], [], []), [], [])
  }

  /** The payload of a whole frame at the front of a buffer, if there is one. */
  function FirstFrame(buffer: seq<Byte>, maxSize: nat): (r: Option<seq<Byte>>)
    ensures r.Some? ==> 4 + |r.value| <= |buffer|
  {
    match ParseFrame(buffer, maxSize)
    case Success(Some(payload)) => Some(payload)
    case _ => None
  }

  ghost function Next<M(!new)>(p: Parties<M>, s: State<M>, action: Action<M>): State<M> {
    match action
    case ServerGreets =>
      if s.server.Starting? then s.(server := AwaitingHello, toClient := s.toClient.Write(Frame(p.greeting))) else s
    case PushToServer(k) => s.(toServer := s.toServer.Push(k))
    case PushToClient(k) => s.(toClient := s.toClient.Push(k))
    case ServerFills(k) => if s.server.AwaitingHello? then s.(toServer := s.toServer.Fill(k)) else s
    case ServerTakesHello =>
      var frame := FirstFrame(s.toServer.buffer, p.codec.maxSize);
      if !s.server.AwaitingHello? || frame.None? then s
      else
        var taken := s.(toServer := s.toServer.Drain(4 + |frame.value|));
        if p.serverAccepts(frame.value) then
          taken.(server := InSession, toClient := s.toClient.Write(Frame(p.ack)))
        else
          taken.(server := ServerDown, toClient := s.toClient.Write(Frame(p.rejection)))
    case ServerFails => s.(server := ServerDown)
    case SessionReads(k) =>
      if s.server.InSession? && k <= |s.toServer.inflight| then
        s.(seen := s.seen + s.toServer.inflight[..k], toServer := s.toServer.(inflight := s.toServer.inflight[k..]))
      else s
    case SessionWrites(bytes) => if s.server.InSession? then s.(toClient := s.toClient.Write(bytes)) else s
    case ClientFills(k) => if s.client.ClientDown? then s else s.(toClient := s.toClient.Fill(k))
    case ClientTakesGreeting =>
      var frame := FirstFrame(s.toClient.buffer, p.codec.maxSize);
      if !s.client.AwaitingGreeting? || frame.None? then s
      else if p.clientAccepts(frame.value) then
        s.(client := AwaitingAck, toClient := s.toClient.Drain(4 + |frame.value|),
           toServer := s.toServer.Write(Frame(p.hello)))
      else s.(client := ClientDown)
    case ClientTakesReply =>
      var frame := FirstFrame(s.toClient.buffer, p.codec.maxSize);
      if !s.client.AwaitingAck? || frame.None? then s
      else if p.isAck(frame.value) then
        s.(client := Connected, toClient := s.toClient.Drain(4 + |frame.value|))
      else s.(client := ClientDown)
    case ClientSends(m) =>
      if s.client.Connected? && p.codec.encode(m).Success? then
        s.(sent := s.sent + [m], toServer := s.toServer.Write(Frame(p.codec.encode(m).value)))
      else s
    case ClientFails => s.(client := ClientDown)
  }

  ghost function Execute<M(!new)>(p: Parties<M>, actions: seq<Action<M>>): State<M> {
    if actions == [] then Initial()
    else Next(p, Execute(p, actions[..|actions| - 1]), actions[|actions| - 1])
  }

  // ---------------------------------------------------------------- the invariant

  ghost predicate Encodable<M(!new)>(p: Parties<M>, messages: seq<M>) {
    forall m :: m in messages ==> p.codec.Encodable(m)
  }

  /** Before the acknowledgement the client has written at most its one hello frame. */
  ghost predicate ToServerOk<M(!new)>(p: Parties<M>, s: State<M>) {
    && Encodable(p, s.sent)
    && (!s.client.Connected? && !s.client.ClientDown? ==> s.sent == [])
    && (s.server.Starting? || s.server.AwaitingHello? ==>
          && s.sent == [] && s.seen == []
          && (s.client.AwaitingGreeting? ==> s.toServer.Rest() == [])
          && (s.toServer.Rest() == [] || s.toServer.Rest() == Frame(p.hello)))
    && (s.server.InSession? ==>
          && !s.client.AwaitingGreeting?
          && s.toServer.buffer == []
          && s.seen + (s.toServer.inflight + s.toServer.outbox) == Frames(p.codec, s.sent))
  }

  /** No reply is on its way before the server has decided, so nobody is connected before then. */
  ghost predicate ToClientOk<M(!new)>(p: Parties<M>, s: State<M>) {
    && (s.server.Starting? ==> (s.client.AwaitingGreeting? || s.client.ClientDown?) && s.toClient.Rest() == [])
    && (s.server.AwaitingHello? ==>
          || s.client.ClientDown?
          || (s.client.AwaitingGreeting? && s.toClient.Rest() == Frame(p.greeting))
          || (s.client.AwaitingAck? && s.toClient.Rest() == []))
  }

  /** Moving bytes along a link changes nothing that is left on it. */
  lemma LinkMoves(l: Link, k: nat)
    ensures l.Push(k).Rest() == l.Rest()
    ensures l.Fill(k).Rest() == l.Rest()
  {
    if k <= |l.outbox| {
      PushedBytes(l, k);
      assert l.Push(k).Rest() == l.buffer + (l.inflight + l.outbox);
    }
    if k <= |l.inflight| {
      assert l.inflight == l.inflight[..k] + l.inflight[k..];
      assert l.Fill(k).Rest() == l.buffer + (l.inflight + l.outbox);
    }
  }

  lemma PushedBytes(l: Link, k: nat)
    requires k <= |l.outbox|
    ensures (l.inflight + l.outbox[..k]) + l.outbox[k..] == l.inflight + l.outbox
  {
    assert l.outbox == l.outbox[..k] + l.outbox[k..];
  }

  lemma LinkWrites(l: Link, bytes: seq<Byte>)
    ensures l.Write(bytes).Rest() == l.Rest() + bytes
  {
    assert l.buffer + (l.inflight + (l.outbox + bytes)) == (l.buffer + (l.inflight + l.outbox)) + bytes;
  }

  /** If all that is left in a link is (at most) one frame, a reader that finds a frame has found that
      one, and nothing is left behind it anywhere. */
  lemma OnlyFrame(l: Link, payload: seq<Byte>, maxSize: nat)
    requires 1 <= |payload| <= maxSize < U32_MODULUS
    requires l.Rest() == [] || l.Rest() == Frame(payload)
    requires FirstFrame(l.buffer, maxSize).Some?
    ensures FirstFrame(l.buffer, maxSize) == Some(payload)
    ensures l.buffer == Frame(payload) && l.inflight == [] && l.outbox == []
  {
    ParseFrameIsStable(l.buffer, l.inflight + l.outbox, maxSize);
    assert l.Rest() == Frame(payload) + [];
    ParseWrittenFrame(payload, [], maxSize);
  }

  lemma EmptyLinkHasNoFrame(l: Link, maxSize: nat)
    ensures l.Rest() == [] ==> FirstFrame(l.buffer, maxSize) == None
  {
    assert |l.Rest()| >= |l.buffer|;
  }

  lemma StepKeepsToClient<M(!new)>(p: Parties<M>, s: State<M>, action: Action<M>)
    requires p.Valid() && ToClientOk(p, s)
    ensures ToClientOk(p, Next(p, s, action))
  {
    match action
    case ServerGreets => LinkWrites(s.toClient, Frame(p.greeting));
    case PushToClient(k) => LinkMoves(s.toClient, k);
    case ClientFills(k) => LinkMoves(s.toClient, k);
    case ClientTakesGreeting =>
      if s.client.AwaitingGreeting? && FirstFrame(s.toClient.buffer, p.codec.maxSize).Some?
         && (s.server.Starting? || s.server.AwaitingHello?) {
        OnlyFrame(s.toClient, p.greeting, p.codec.maxSize);
      }
    case ClientTakesReply => EmptyLinkHasNoFrame(s.toClient, p.codec.maxSize);
    case _ =>
  }

  lemma StepKeepsToServer<M(!new)>(p: Parties<M>, s: State<M>, action: Action<M>)
    requires p.Valid() && ToServerOk(p, s) && ToClientOk(p, s)
    ensures ToServerOk(p, Next(p, s, action))
  {
    match action
    case PushToServer(k) => PushingKeepsToServer(p, s, k);
    case ServerFills(k) => LinkMoves(s.toServer, k);
    case ServerTakesHello => ServerTakesOnlyTheHello(p, s);
    case SessionReads(k) => ReadingKeepsToServer(p, s, k);
    case ClientTakesGreeting => LinkWrites(s.toServer, Frame(p.hello));
    case ClientSends(m) => SendingKeepsToServer(p, s, m);
    case _ =>
  }

  lemma PushingKeepsToServer<M(!new)>(p: Parties<M>, s: State<M>, k: nat)
    requires p.Valid() && ToServerOk(p, s)
    ensures ToServerOk(p, Next(p, s, PushToServer(k)))
  {
    LinkMoves(s.toServer, k);
    if k <= |s.toServer.outbox| {
      PushedBytes(s.toServer, k);
    }
  }

  lemma ReadingKeepsToServer<M(!new)>(p: Parties<M>, s: State<M>, k: nat)
    requires p.Valid() && ToServerOk(p, s)
    ensures ToServerOk(p, Next(p, s, SessionReads(k)))
  {
    if k <= |s.toServer.inflight| {
      SplitInflight(s.seen, s.toServer.inflight, s.toServer.outbox, k);
    }
  }

  lemma SplitInflight(seen: seq<Byte>, inflight: seq<Byte>, outbox: seq<Byte>, k: nat)
    requires k <= |inflight|
    ensures seen + (inflight + outbox) == (seen + inflight[..k]) + (inflight[k..] + outbox)
  {
    assert inflight == inflight[..k] + inflight[k..];
    Regroup(inflight[..k], inflight[k..], outbox);
    Regroup(seen, inflight[..k], inflight[k..] + outbox);
  }

  lemma SendingKeepsToServer<M(!new)>(p: Parties<M>, s: State<M>, m: M)
    requires p.Valid() && ToServerOk(p, s) && ToClientOk(p, s)
    ensures ToServerOk(p, Next(p, s, ClientSends(m)))
  {
    if s.client.Connected? && p.codec.encode(m).Success? {
      assert p.codec.Encodable(m);
      FramesSnoc(p.codec, s.sent, m);
      var frame := Frame(p.codec.encode(m).value);
      Regroup(s.toServer.inflight, s.toServer.outbox, frame);
      Regroup(s.seen, s.toServer.inflight + s.toServer.outbox, frame);
    }
  }

  lemma ServerTakesOnlyTheHello<M(!new)>(p: Parties<M>, s: State<M>)
    requires p.Valid() && ToServerOk(p, s) && ToClientOk(p, s)
    ensures ToServerOk(p, Next(p, s, ServerTakesHello))
  {
    if s.server.AwaitingHello? && FirstFrame(s.toServer.buffer, p.codec.maxSize).Some? {
      OnlyFrame(s.toServer, p.hello, p.codec.maxSize);
      assert s.toServer.Drain(4 + |p.hello|).buffer == [];
      assert Frames(p.codec, s.sent) == [];
    }
  }

  lemma {:induction false} ReachableOk<M(!new)>(p: Parties<M>, actions: seq<Action<M>>)
    requires p.Valid()
    ensures ToServerOk(p, Execute(p, actions)) && ToClientOk(p, Execute(p, actions))
  {
    if actions != [] {
      var before := actions[..|actions| - 1];
      ReachableOk(p, before);
      StepKeepsToServer(p, Execute(p, before), actions[|actions| - 1]);
      StepKeepsToClient(p, Execute(p, before), actions[|actions| - 1]);
    }
  }

  // ---------------------------------------------------------------- what the invariant gives

  /** A stream cut anywhere is understood as a prefix of its messages, with no error but truncation. */
  lemma {:induction false} PrefixParses<M(!new)>(codec: Codec<M>, messages: seq<M>, seen: seq<Byte>, rest: seq<Byte>)
    requires codec.Valid()
    requires forall m :: m in messages ==> codec.Encodable(m)
    requires seen + rest == Frames(codec, messages)
    ensures ParseStream(codec, seen).messages <= messages
    ensures var ending := ParseStream(codec, seen).ending;
            ending.None? || ending.value.TruncatedHeader? || ending.value.TruncatedPayload?
  {
    if messages != [] {
      assert codec.Encodable(messages[0]);
      var payload := codec.encode(messages[0]).value;
      var more := Frames(codec, messages[1..]);
      var frame := Frame(payload);
      if |seen| < |frame| {
        assert seen == (seen + rest)[..|seen|];
        assert seen == frame[..|seen|];
        ParsePartialFrame(payload, |seen|, codec.maxSize);
      } else {
        var tail := seen[|frame|..];
        assert frame == (frame + more)[..|frame|] == (seen + rest)[..|frame|] == seen[..|frame|];
        assert seen == frame + tail;
        assert more == (seen + rest)[|frame|..] == tail + rest;
        ParseWrittenFrame(payload, tail, codec.maxSize);
        PrefixParses(codec, messages[1..], tail, rest);
      }
    }
  }

  /** Clean hand-over: under every interleaving and every chunking, when the server is in its session
      loop the abandoned read buffer is empty, the loop has met the client's messages from the very
      first byte, and it has understood a prefix of what the client sent. */
  lemma HandOverIsClean<M(!new)>(p: Parties<M>, actions: seq<Action<M>>)
    requires p.Valid()
    ensures var s := Execute(p, actions);
            && (s.client.Connected? ==> s.server.InSession? || s.server.ServerDown?)
            && (s.server.InSession? ==>
                  && s.toServer.buffer == []
                  && Encodable(p, s.sent)
                  && s.seen + (s.toServer.inflight + s.toServer.outbox) == Frames(p.codec, s.sent)
                  && ParseStream(p.codec, s.seen).messages <= s.sent)
  {
    ReachableOk(p, actions);
    var s := Execute(p, actions);
    if s.server.InSession? {
      PrefixParses(p.codec, s.sent, s.seen, s.toServer.inflight + s.toServer.outbox);
    }
  }

  /** Once everything written has been read, the session has understood every message. */
  lemma EveryMessageIsHeard<M(!new)>(p: Parties<M>, actions: seq<Action<M>>)
    requires p.Valid()
    requires Execute(p, actions).server.InSession?
    requires Execute(p, actions).toServer.inflight == Execute(p, actions).toServer.outbox == []
    ensures ParseStream(p.codec, Execute(p, actions).seen) == Stream(Execute(p, actions).sent, None)
  {
    HandOverIsClean(p, actions);
    var s := Execute(p, actions);
    assert s.seen + (s.toServer.inflight + s.toServer.outbox) == s.seen;
    StreamRoundTrip(p.codec, s.sent);
  }

  /** Why waiting for the acknowledgement matters: a peer that sends its first message together with
      its hello has that message read into the buffer, and the session loop never hears of it. */
  lemma PipelinedMessageIsLost<M(!new)>(codec: Codec<M>, m: M, later: seq<M>, helloCodec: Codec<seq<Byte>>, hello: seq<Byte>)
    requires codec.Valid() && helloCodec.Valid() && helloCodec.maxSize == codec.maxSize
    requires codec.Encodable(m) && forall x :: x in later ==> codec.Encodable(x)
    requires helloCodec.Encodable(hello)
    requires |Frame(helloCodec.encode(hello).value) + Frame(codec.encode(m).value)| <= CHUNK
    requires later != []
    ensures var greeting := Frame(helloCodec.encode(hello).value);
            var script := [Data(greeting + Frame(codec.encode(m).value)), Data(Frames(codec, later))];
            var step := Read(MessageUntil, helloCodec, [], script);
            && step.delivery == Message(hello)
            && step.buffer == Frame(codec.encode(m).value)
            && Clean(step.script) && Blocking(step.script)
            && CollectBlocking(codec, step.script) == Stream(later, None)
  {
    var payload := helloCodec.encode(hello).value;
    var extra := Frame(codec.encode(m).value);
    var rest := [Data(Frames(codec, later))];
    ReadsTogether(helloCodec, payload, extra, rest);
    assert ([Data(Frame(payload) + extra)] + rest) == [Data(Frame(payload) + extra), rest[0]];
    assert codec.Encodable(later[0]);
    assert Bytes(rest) == Frames(codec, later) by {
      assert rest[1..] == [] && Frames(codec, later) + [] == Frames(codec, later);
    }
    WrittenMessagesArrive(codec, later, rest);
  }

  /** A frame that arrives together with what follows it leaves that in the buffer. */
  lemma ReadsTogether(codec: Codec<seq<Byte>>, payload: seq<Byte>, extra: seq<Byte>, rest: seq<ReadEvent>)
    requires 1 <= |payload| <= codec.maxSize < U32_MODULUS && codec.decode(payload).Some?
    requires |Frame(payload) + extra| <= CHUNK
    ensures Read(MessageUntil, codec, [], [Data(Frame(payload) + extra)] + rest)
         == Step.Step(Message(codec.decode(payload).value), Frame(payload), extra, rest)
  {
    var chunk := Frame(payload) + extra;
    var script := [Data(chunk)] + rest;
    assert script[1..] == rest;
    assert NextRead(script, CHUNK) == (Got(chunk), rest);
    ParseWrittenFrame(payload, extra, codec.maxSize);
    assert [] + chunk == chunk && chunk[..4 + |payload|] == Frame(payload) && chunk[4 + |payload|..] == extra;
    assert Read(MessageUntil, codec, chunk, rest) == Step.Step(Message(codec.decode(payload).value), Frame(payload), extra, rest);
  }
}
