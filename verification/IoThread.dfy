/** The client's connected loop: take at most one message from the queue, stamp and write it, then read
    and dispatch what the engine sent, until the connection ends. */
module IoThread {
  import opened Wrappers
  import opened Numbers
  import opened Framing
  import opened Pipe
  import opened Protocol
  import FrontendSession
  import opened Dispatch

  datatype Ending = Stopped | WriteError | BadIdentity | EngineDisconnected | ReadError(error: PipeError)

  /** What one turn of the loop finds: the stop flag, and a message in the queue or none. */
  datatype Turn = Turn(stop: bool, message: Option<FrontendMessage>)

  /** Reads after the first one of a turn. */
  const DRAIN_LIMIT := 31

  // ---------------------------------------------------------------- hearing

  /** The messages of a run do not force a reconnect. */
  predicate Accepted(c: Connection, messages: seq<EngineMessage>)
    decreases |messages|
  {
    messages == [] || (var (next, reason) := Dispatch.Dispatch(c, messages[0]); reason.None? && Accepted(next, messages[1..]))
  }

  lemma {:induction false} DeliverSnoc(c: Connection, messages: seq<EngineMessage>, m: EngineMessage)
    requires Accepted(c, messages)
    ensures var (next, reason) := Dispatch.Dispatch(Deliver(c, messages), m);
            Deliver(c, messages + [m]) == next && (Accepted(c, messages + [m]) <==> reason.None?)
    decreases |messages|
  {
    if messages == [] {
      assert Accepted(Dispatch.Dispatch(c, m).0, []);
      assert [m][1..] == [];
    } else {
      assert (messages + [m])[1..] == messages[1..] + [m];
      DeliverSnoc(Dispatch.Dispatch(c, messages[0]).0, messages[1..], m);
    }
  }

  function WithSequence(c: Connection, n: U64): Connection { c.(session := c.session.(nextSequence := n)) }

  /** Stamping outbound messages does not disturb the dispatching of inbound ones. */
  lemma DispatchIgnoresSequence(c: Connection, n: U64, m: EngineMessage)
    ensures Dispatch.Dispatch(WithSequence(c, n), m).0 == WithSequence(Dispatch.Dispatch(c, m).0, n)
    ensures Dispatch.Dispatch(WithSequence(c, n), m).1 == Dispatch.Dispatch(c, m).1
    ensures Dispatch.Dispatch(c, m).0.session.nextSequence == c.session.nextSequence
  {
  }

  /** The stream before is what was heard, followed by the stream after. */
  ghost predicate Follows(before: Stream<EngineMessage>, heard: seq<EngineMessage>, after: Stream<EngineMessage>) {
    before == Stream(heard + after.messages, after.ending)
  }

  lemma FollowsOn(before: Stream<EngineMessage>, heard: seq<EngineMessage>, m: EngineMessage, between: Stream<EngineMessage>,
                  after: Stream<EngineMessage>)
    requires Follows(before, heard, between) && Follows(between, [m], after)
    ensures Follows(before, heard + [m], after)
  {
    assert heard + ([m] + after.messages) == (heard + [m]) + after.messages;
  }

  ghost function Incoming(codec: Codec<EngineMessage>, reader: PipeReader): Stream<EngineMessage>
    reads reader, reader.inner
  {
    Collect(MessageUntil, codec, reader.buffer, reader.inner.script)
  }

  ghost function Ahead(reader: PipeReader): nat
    reads reader, reader.inner
  {
    |reader.buffer| + |Bytes(reader.inner.script)|
  }

  /** One read and, if a message came, its dispatch. */
  method HearOne(reader: PipeReader, codec: Codec<EngineMessage>, dispatcher: Dispatcher)
    returns (heard: Option<EngineMessage>, ending: Option<Ending>)
    requires |reader.buffer| <= BufferBound(codec.maxSize)
    modifies reader, reader.inner, dispatcher, dispatcher.session
    ensures |reader.buffer| <= BufferBound(codec.maxSize)
    ensures heard.None? ==> dispatcher.Model() == old(dispatcher.Model())
    ensures heard.None? && ending.None? ==>
              && Incoming(codec, reader) == old(Incoming(codec, reader))
              && Ahead(reader) <= old(Ahead(reader)) && Size(reader.inner.script) < old(Size(reader.inner.script))
    ensures heard.None? && ending.Some? ==>
              && (ending.value.EngineDisconnected? || ending.value.ReadError?)
              && old(Incoming(codec, reader)) == Stream([], if ending.value.ReadError? then Some(ending.value.error) else None)
    ensures var step := Framing.Read(MessageUntil, codec, old(reader.buffer), old(reader.inner.script));
            && reader.buffer == step.buffer && reader.inner.script == step.script
            && (if heard.Some? then step.delivery == Message(heard.value) else !step.delivery.Message?)
    ensures heard.Some? ==>
              && Follows(old(Incoming(codec, reader)), [heard.value], Incoming(codec, reader))
              && Ahead(reader) < old(Ahead(reader))
              && dispatcher.Model() == Dispatch.Dispatch(old(dispatcher.Model()), heard.value).0
              && ending == (if Dispatch.Dispatch(old(dispatcher.Model()), heard.value).1.Some? then Some(BadIdentity) else None)
  {
    ReadProgress(MessageUntil, codec, reader.buffer, reader.inner.script);
    var read := reader.ReadUntil(MessageUntil, codec);
    heard, ending := None, None;
    match read {
      case Message(m) =>
        heard := Some(m);
        var reason := dispatcher.DispatchEngineMessage(m);
        if reason.Some? {
          ending := Some(BadIdentity);
        }
      case Fault(TimedOut) =>
      case Absent => ending := Some(EngineDisconnected);
      case Fault(Disconnected) => ending := Some(EngineDisconnected);
      case Fault(error) => ending := Some(ReadError(error));
      case Raw(_) => ending := Some(EngineDisconnected);
    }
  }

  /** Where a connection stands: every message heard was dispatched in order, and together with what is
      still to come they are the engine's stream; once the connection has ended, how it ended says what
      the stream held. */
  ghost predicate Heard(c0: Connection, before: Stream<EngineMessage>, heard: seq<EngineMessage>, n: U64,
                        c: Connection, after: Stream<EngineMessage>, ending: Option<Ending>) {
    && c == WithSequence(Deliver(c0, heard), n)
    && match ending
       case Some(EngineDisconnected) => Accepted(c0, heard) && before == Stream(heard, None)
       case Some(ReadError(error)) => Accepted(c0, heard) && before == Stream(heard, Some(error))
       case Some(BadIdentity) =>
         && heard != [] && Accepted(c0, heard[..|heard| - 1]) && !Accepted(c0, heard)
         && Follows(before, heard, after)
       case _ => Accepted(c0, heard) && Follows(before, heard, after)
  }

  lemma HeardAnother(c0: Connection, before: Stream<EngineMessage>, heard: seq<EngineMessage>, n: U64,
                     c: Connection, between: Stream<EngineMessage>, m: EngineMessage, after: Stream<EngineMessage>)
    requires Heard(c0, before, heard, n, c, between, None)
    requires Follows(between, [m], after)
    ensures var (next, reason) := Dispatch.Dispatch(c, m);
            Heard(c0, before, heard + [m], n, next, after, if reason.Some? then Some(BadIdentity) else None)
  {
    DeliverSnoc(c0, heard, m);
    DispatchIgnoresSequence(Deliver(c0, heard), n, m);
    FollowsOn(before, heard, m, between, after);
    assert (heard + [m])[..|heard + [m]| - 1] == heard;
  }

  lemma HeardTheEnd(c0: Connection, before: Stream<EngineMessage>, heard: seq<EngineMessage>, n: U64,
                    c: Connection, between: Stream<EngineMessage>, ending: Ending, after: Stream<EngineMessage>)
    requires Heard(c0, before, heard, n, c, between, None)
    requires ending.EngineDisconnected? || ending.ReadError?
    requires between == Stream([], if ending.ReadError? then Some(ending.error) else None)
    ensures Heard(c0, before, heard, n, c, after, Some(ending))
  {
    assert heard + [] == heard;
  }

  /** The messages that up to `n` reads deliver, until one delivers none. */
  ghost function Burst(codec: Codec<EngineMessage>, buffer: seq<Byte>, script: seq<ReadEvent>, n: nat): seq<EngineMessage>
    decreases n
  {
    if n == 0 then []
    else
      var step := Framing.Read(MessageUntil, codec, buffer, script);
      if step.delivery.Message? then [step.delivery.m] + Burst(codec, step.buffer, step.script, n - 1) else []
  }

  lemma {:induction false} BurstIsShort(codec: Codec<EngineMessage>, buffer: seq<Byte>, script: seq<ReadEvent>, n: nat)
    ensures |Burst(codec, buffer, script, n)| <= n
    decreases n
  {
    if n > 0 {
      var step := Framing.Read(MessageUntil, codec, buffer, script);
      BurstIsShort(codec, step.buffer, step.script, n - 1);
    }
  }

  lemma BurstGoesOn(past: seq<EngineMessage>, m: EngineMessage, more: seq<EngineMessage>)
    ensures past + ([m] + more) == (past + [m]) + more
  {
  }

  /** One read of a burst that has `left` reads left. */
  method HearNext(reader: PipeReader, codec: Codec<EngineMessage>, dispatcher: Dispatcher, ghost c0: Connection,
                  ghost before: Stream<EngineMessage>, ghost past: seq<EngineMessage>, ghost n: U64, ghost left: nat)
    returns (more: bool, ghost heard: seq<EngineMessage>, ending: Option<Ending>)
    requires left > 0 && |reader.buffer| <= BufferBound(codec.maxSize)
    requires Heard(c0, before, past, n, dispatcher.Model(), Incoming(codec, reader), None)
    modifies reader, reader.inner, dispatcher, dispatcher.session
    ensures |reader.buffer| <= BufferBound(codec.maxSize)
    ensures Heard(c0, before, heard, n, dispatcher.Model(), Incoming(codec, reader), ending)
    ensures past <= heard && |heard| <= |past| + 1 && (more ==> ending.None?)
    ensures ending.None? || !(ending.value.Stopped? || ending.value.WriteError?)
    ensures var all := past + Burst(codec, old(reader.buffer), old(reader.inner.script), left);
            if more then all == heard + Burst(codec, reader.buffer, reader.inner.script, left - 1)
            else heard <= all && (ending != Some(BadIdentity) ==> heard == all)
    ensures more ==> Ahead(reader) < old(Ahead(reader))
    ensures !more && ending.None? ==>
              Ahead(reader) <= old(Ahead(reader)) && Size(reader.inner.script) < old(Size(reader.inner.script))
  {
    ghost var c, between := dispatcher.Model(), Incoming(codec, reader);
    var message;
    message, ending := HearOne(reader, codec, dispatcher);
    more, heard := message.Some? && ending.None?, past;
    if message.Some? {
      BurstGoesOn(past, message.value, Burst(codec, reader.buffer, reader.inner.script, left - 1));
      HeardAnother(c0, before, past, n, c, between, message.value, Incoming(codec, reader));
      heard := past + [message.value];
    } else if ending.Some? {
      HeardTheEnd(c0, before, past, n, c, between, ending.value, Incoming(codec, reader));
    }
  }

  /** The reading half of a turn: one message, then at most 31 more while they keep coming. It hears all that so
      many reads deliver, unless a message ends the connection. */
  method HearBurst(reader: PipeReader, codec: Codec<EngineMessage>, dispatcher: Dispatcher,
                   ghost c0: Connection, ghost before: Stream<EngineMessage>, ghost past: seq<EngineMessage>, ghost n: U64)
    returns (ghost heard: seq<EngineMessage>, ending: Option<Ending>)
    requires |reader.buffer| <= BufferBound(codec.maxSize)
    requires Heard(c0, before, past, n, dispatcher.Model(), Incoming(codec, reader), None)
    modifies reader, reader.inner, dispatcher, dispatcher.session
    ensures |reader.buffer| <= BufferBound(codec.maxSize)
    ensures past <= heard && |heard| <= |past| + 32
    ensures heard <= past + Burst(codec, old(reader.buffer), old(reader.inner.script), 32)
    ensures ending != Some(BadIdentity) ==> heard == past + Burst(codec, old(reader.buffer), old(reader.inner.script), 32)
    ensures Heard(c0, before, heard, n, dispatcher.Model(), Incoming(codec, reader), ending)
    ensures ending.None? ==>
              || Ahead(reader) < old(Ahead(reader))
              || (Ahead(reader) == old(Ahead(reader)) && Size(reader.inner.script) < old(Size(reader.inner.script)))
    ensures ending.None? || !(ending.value.Stopped? || ending.value.WriteError?)
  {
    heard, ending := past, None;
    ghost var all := past + Burst(codec, reader.buffer, reader.inner.script, 32);
    BurstIsShort(codec, reader.buffer, reader.inner.script, 32);
    for count := 0 to 1 + DRAIN_LIMIT
      invariant |reader.buffer| <= BufferBound(codec.maxSize)
      invariant past <= heard
      invariant all == heard + Burst(codec, reader.buffer, reader.inner.script, 32 - count)
      invariant ending.None?
      invariant Heard(c0, before, heard, n, dispatcher.Model(), Incoming(codec, reader), None)
      invariant if count == 0 then Ahead(reader) == old(Ahead(reader)) && Size(reader.inner.script) == old(Size(reader.inner.script))
                else Ahead(reader) < old(Ahead(reader))
    {
      var more;
      more, heard, ending := HearNext(reader, codec, dispatcher, c0, before, heard, n, 32 - count);
      if !more {
        return;
      }
    }
  }

  // ---------------------------------------------------------------- sending

  /** The messages the first turns of a connection found in the queue. */
  ghost function Offered(turns: seq<Turn>): seq<FrontendMessage> {
    if turns == [] then []
    else Offered(turns[..|turns| - 1]) + InQueue(turns[|turns| - 1])
  }

  lemma OfferedSnoc(turns: seq<Turn>, k: nat)
    requires k < |turns|
    ensures Offered(turns[..k + 1]) == Offered(turns[..k]) + InQueue(turns[k])
    ensures turns[k].message.None? ==> Offered(turns[..k + 1]) == Offered(turns[..k])
  {
    assert turns[..k + 1][..k] == turns[..k];
  }

  function InQueue(turn: Turn): seq<FrontendMessage> { if turn.message.Some? then [turn.message.value] else [] }

  /** The stop flag was not set in the first `n` turns. */
  predicate Unstopped(turns: seq<Turn>, n: nat)
    requires n <= |turns|
  {
    n == 0 || (!turns[n - 1].stop && Unstopped(turns, n - 1))
  }

  function SequenceAfter(first: U64, sent: nat): U64 { if first + sent <= U64_MAX then first + sent else U64_MAX }

  /** `m` is `offered` under the identity of the connection, as its `k`-th message. */
  ghost predicate Stamped(c0: Connection, offered: FrontendMessage, k: nat, m: FrontendMessage) {
    && m.body == offered.body
    && m.header.protocolVersion == CORE_PROTOCOL_VERSION
    && m.header.client == c0.session.client && m.header.session == c0.session.session && m.header.epoch == c0.session.epoch
    && m.header.sequence == SequenceAfter(c0.session.nextSequence, k)
  }

  /** What has gone out: the offered messages in order, each stamped, each as one whole frame. */
  ghost predicate Sent(c0: Connection, codec: Codec<FrontendMessage>, base: seq<Byte>, offered: seq<FrontendMessage>,
                       sent: seq<FrontendMessage>, written: seq<Byte>) {
    && |sent| == |offered|
    && (forall k :: 0 <= k < |sent| ==> Stamped(c0, offered[k], k, sent[k]))
    && (forall m :: m in sent ==> codec.Encodable(m))
    && written == base + Frames(codec, sent)
  }

  lemma SentAnother(c0: Connection, codec: Codec<FrontendMessage>, base: seq<Byte>, offered: seq<FrontendMessage>,
                    sent: seq<FrontendMessage>, written: seq<Byte>, next: FrontendMessage, m: FrontendMessage)
    requires Sent(c0, codec, base, offered, sent, written)
    requires Stamped(c0, next, |sent|, m) && codec.Encodable(m)
    ensures Sent(c0, codec, base, offered + [next], sent + [m], written + Frame(codec.encode(m).value))
  {
    FramesSnoc(codec, sent, m);
    Framing.Regroup(base, Frames(codec, sent), Frame(codec.encode(m).value));
  }

  lemma {:induction false} DeliverKeepsIdentity(c: Connection, messages: seq<EngineMessage>)
    ensures var s := Deliver(c, messages).session;
            && s.client == c.session.client && s.session == c.session.session && s.epoch == c.session.epoch
            && s.nextSequence == c.session.nextSequence
    decreases |messages|
  {
    if messages != [] {
      var (next, reason) := Dispatch.Dispatch(c, messages[0]);
      DispatchIgnoresSequence(c, 0, messages[0]);
      if reason.None? {
        DeliverKeepsIdentity(next, messages[1..]);
      }
    }
  }

  /** The last offered message did not make it: it was refused by the codec, or the pipe took a proper
      prefix of its frame. */
  ghost predicate Broken(c0: Connection, codec: Codec<FrontendMessage>, base: seq<Byte>, offered: seq<FrontendMessage>,
                         sent: seq<FrontendMessage>, written: seq<Byte>) {
    && |offered| == |sent| + 1
    && exists done: seq<Byte>, m: FrontendMessage ::
         && Sent(c0, codec, base, offered[..|sent|], sent, done)
         && Stamped(c0, offered[|sent|], |sent|, m)
         && PartlyWritten(codec, m, done, written)
  }

  ghost predicate PartlyWritten(codec: Codec<FrontendMessage>, m: FrontendMessage, done: seq<Byte>, written: seq<Byte>) {
    match codec.encode(m)
    case Failure(_) => written == done
    case Success(payload) => done <= written < done + Frame(payload)
  }

  /** The writing half of a turn. */
  method SendOne(writer: PipeWriter, codec: Codec<FrontendMessage>, dispatcher: Dispatcher, next: FrontendMessage,
                 ghost c0: Connection, ghost base: seq<Byte>, ghost offered: seq<FrontendMessage>, ghost sent: seq<FrontendMessage>)
    returns (ok: bool, ghost m: FrontendMessage)
    requires writer.inner.piece > 0
    requires dispatcher.session.nextSequence == SequenceAfter(c0.session.nextSequence, |sent|)
    requires dispatcher.session.client == c0.session.client && dispatcher.session.session == c0.session.session
    requires dispatcher.session.epoch == c0.session.epoch
    requires Sent(c0, codec, base, offered, sent, writer.inner.written)
    modifies writer.inner, dispatcher.session
    ensures writer.inner.piece > 0
    ensures dispatcher.Model()
         == WithSequence(old(dispatcher.Model()), SequenceAfter(c0.session.nextSequence, |sent| + 1))
    ensures ok ==> Sent(c0, codec, base, offered + [next], sent + [m], writer.inner.written)
    ensures !ok ==> Broken(c0, codec, base, offered + [next], sent, writer.inner.written)
  {
    ghost var done := writer.inner.written;
    var message := dispatcher.session.PrepareMessage(next);
    m := message;
    var result := writer.WriteMessage(codec, message);
    ok := result.Success?;
    assert Stamped(c0, next, |sent|, m);
    if ok {
      SentAnother(c0, codec, base, offered, sent, done, next, m);
    } else {
      assert (offered + [next])[..|sent|] == offered;
      assert PartlyWritten(codec, m, done, writer.inner.written);
    }
  }

  /** At most one message from the queue. */
  method TakeOne(writer: PipeWriter, codec: Codec<FrontendMessage>, dispatcher: Dispatcher, turns: seq<Turn>, k: nat,
                 ghost c0: Connection, ghost before: Stream<EngineMessage>, ghost heard: seq<EngineMessage>,
                 ghost after: Stream<EngineMessage>, ghost base: seq<Byte>, ghost past: seq<FrontendMessage>)
    returns (ok: bool, ghost sent: seq<FrontendMessage>)
    requires writer.inner.piece > 0 && k < |turns|
    requires Heard(c0, before, heard, SequenceAfter(c0.session.nextSequence, |past|), dispatcher.Model(), after, None)
    requires Sent(c0, codec, base, Offered(turns[..k]), past, writer.inner.written)
    modifies writer.inner, dispatcher.session
    ensures writer.inner.piece > 0
    ensures Heard(c0, before, heard, SequenceAfter(c0.session.nextSequence, |sent| + if ok then 0 else 1),
                  dispatcher.Model(), after, None)
    ensures ok ==> Sent(c0, codec, base, Offered(turns[..k + 1]), sent, writer.inner.written)
    ensures !ok ==> Broken(c0, codec, base, Offered(turns[..k + 1]), sent, writer.inner.written)
  {
    OfferedSnoc(turns, k);
    ok, sent := true, past;
    if turns[k].message.Some? {
      DeliverKeepsIdentity(c0, heard);
      ghost var m;
      ok, m := SendOne(writer, codec, dispatcher, turns[k].message.value, c0, base, Offered(turns[..k]), past);
      if ok {
        sent := past + [m];
      }
    }
  }

  /** What a turn does before it reads: it ends if the stop flag is set, and otherwise sends. */
  method BeginTurn(writer: PipeWriter, codec: Codec<FrontendMessage>, dispatcher: Dispatcher, turns: seq<Turn>, k: nat,
                   ghost c0: Connection, ghost before: Stream<EngineMessage>, ghost heard: seq<EngineMessage>,
                   ghost after: Stream<EngineMessage>, ghost base: seq<Byte>, ghost past: seq<FrontendMessage>)
    returns (ending: Option<Ending>, ghost sent: seq<FrontendMessage>)
    requires writer.inner.piece > 0 && k < |turns| && Unstopped(turns, k)
    requires Heard(c0, before, heard, SequenceAfter(c0.session.nextSequence, |past|), dispatcher.Model(), after, None)
    requires Sent(c0, codec, base, Offered(turns[..k]), past, writer.inner.written)
    modifies writer.inner, dispatcher.session
    ensures writer.inner.piece > 0
    ensures ending in {None, Some(Stopped), Some(WriteError)}
    ensures Heard(c0, before, heard, SequenceAfter(c0.session.nextSequence, |sent| + if ending == Some(WriteError) then 1 else 0),
                  dispatcher.Model(), after, None)
    ensures if ending == Some(Stopped) then turns[k].stop else Unstopped(turns, k + 1)
    ensures ending == Some(Stopped) ==> Sent(c0, codec, base, Offered(turns[..k]), sent, writer.inner.written)
    ensures ending == None ==> Sent(c0, codec, base, Offered(turns[..k + 1]), sent, writer.inner.written)
    ensures ending == Some(WriteError) ==> Broken(c0, codec, base, Offered(turns[..k + 1]), sent, writer.inner.written)
  {
    if turns[k].stop {
      return Some(Stopped), past;
    }
    var ok;
    ok, sent := TakeOne(writer, codec, dispatcher, turns, k, c0, before, heard, after, base, past);
    ending := if ok then None else Some(WriteError);
  }

  /** One turn of the loop: send, unless there are no more turns to take, and then read a burst. */
  method TakeTurn(reader: PipeReader, codec: Codec<EngineMessage>, writer: PipeWriter, outCodec: Codec<FrontendMessage>,
                  dispatcher: Dispatcher, turns: seq<Turn>, next: nat, ghost c0: Connection, ghost before: Stream<EngineMessage>,
                  ghost base: seq<Byte>, ghost past: seq<EngineMessage>, ghost done: seq<FrontendMessage>)
    returns (ending: Option<Ending>, ghost heard: seq<EngineMessage>, ghost sent: seq<FrontendMessage>, taken: nat)
    requires |reader.buffer| <= BufferBound(codec.maxSize) && writer.inner.piece > 0
    requires next <= |turns| && Unstopped(turns, next)
    requires Heard(c0, before, past, SequenceAfter(c0.session.nextSequence, |done|), dispatcher.Model(), Incoming(codec, reader), None)
    requires Sent(c0, outCodec, base, Offered(turns[..next]), done, writer.inner.written)
    modifies reader, reader.inner, writer.inner, dispatcher, dispatcher.session
    ensures |reader.buffer| <= BufferBound(codec.maxSize) && writer.inner.piece > 0
    ensures taken <= |turns| && Unstopped(turns, taken)
    ensures ending == Some(Stopped) ==> taken < |turns| && turns[taken].stop
    ensures Heard(c0, before, heard, SequenceAfter(c0.session.nextSequence, |sent| + if ending == Some(WriteError) then 1 else 0),
                  dispatcher.Model(), Incoming(codec, reader), ending)
    ensures if ending == Some(WriteError) then Broken(c0, outCodec, base, Offered(turns[..taken]), sent, writer.inner.written)
            else Sent(c0, outCodec, base, Offered(turns[..taken]), sent, writer.inner.written)
    ensures ending.None? ==>
              || Ahead(reader) < old(Ahead(reader))
              || (Ahead(reader) == old(Ahead(reader)) && Size(reader.inner.script) < old(Size(reader.inner.script)))
  {
    heard, sent, taken, ending := past, done, next, None;
    if next < |turns| {
      ending, sent := BeginTurn(writer, outCodec, dispatcher, turns, next, c0, before, heard, Incoming(codec, reader), base, sent);
      if ending == Some(Stopped) {
        return;
      }
      taken := next + 1;
      if ending.Some? {
        return;
      }
    }
    heard, ending := HearBurst(reader, codec, dispatcher, c0, before, heard, SequenceAfter(c0.session.nextSequence, |sent|));
  }

  /** A connection from the handshake to its end. Inbound: the messages heard were dispatched in order
      and are the front of the engine's stream, all of it when the engine closed. Outbound: the messages
      taken from the queue, in order, stamped with this connection's identity and consecutive sequence
      numbers, as whole frames; only a write error loses the one message it happened on. */
  method RunConnection(reader: PipeReader, codec: Codec<EngineMessage>, writer: PipeWriter, outCodec: Codec<FrontendMessage>,
                       dispatcher: Dispatcher, turns: seq<Turn>)
    returns (ending: Ending, ghost heard: seq<EngineMessage>, ghost sent: seq<FrontendMessage>, ghost taken: nat)
    requires |reader.buffer| <= BufferBound(codec.maxSize) && writer.inner.piece > 0
    modifies reader, reader.inner, writer.inner, dispatcher, dispatcher.session
    ensures taken <= |turns| && Unstopped(turns, taken)
    ensures ending.Stopped? ==> taken < |turns| && turns[taken].stop
    ensures Heard(old(dispatcher.Model()), old(Incoming(codec, reader)), heard,
                  SequenceAfter(old(dispatcher.session.nextSequence), |sent| + if ending.WriteError? then 1 else 0),
                  dispatcher.Model(), Incoming(codec, reader), Some(ending))
    ensures !ending.WriteError? ==>
              Sent(old(dispatcher.Model()), outCodec, old(writer.inner.written), Offered(turns[..taken]), sent, writer.inner.written)
    ensures ending.WriteError? ==>
              Broken(old(dispatcher.Model()), outCodec, old(writer.inner.written), Offered(turns[..taken]), sent, writer.inner.written)
  {
    ghost var c0, before, base := dispatcher.Model(), Incoming(codec, reader), writer.inner.written;
    heard, sent := [], [];
    var next: nat := 0;
    assert [] + before.messages == before.messages && base + [] == base;
    while true
      invariant |reader.buffer| <= BufferBound(codec.maxSize) && writer.inner.piece > 0
      invariant next <= |turns| && Unstopped(turns, next)
      invariant Heard(c0, before, heard, SequenceAfter(c0.session.nextSequence, |sent|),
                      dispatcher.Model(), Incoming(codec, reader), None)
      invariant Sent(c0, outCodec, base, Offered(turns[..next]), sent, writer.inner.written)
      decreases Ahead(reader), Size(reader.inner.script)
    {
      var over;
      over, heard, sent, next := TakeTurn(reader, codec, writer, outCodec, dispatcher, turns, next, c0, before, base, heard, sent);
      if over.Some? {
        return over.value, heard, sent, next;
      }
    }
  }

  /** End to end: when the engine's frames, in any pieces, were the whole stream and the engine then
      closed, the client has heard exactly the engine's messages, and has posted every action they ask
      for, except the last preedit if no snapshot followed it: that one is still held, and the next
      connection will not know of it. */
  lemma EngineIsHeardInFull(session: FrontendSession.State, codec: Codec<EngineMessage>, messages: seq<EngineMessage>,
                            script: seq<ReadEvent>, heard: seq<EngineMessage>, n: U64, c: Connection, after: Stream<EngineMessage>)
    requires codec.Valid() && forall m :: m in messages ==> codec.Encodable(m)
    requires Clean(script) && Bytes(script) == Frames(codec, messages)
    requires Heard(Connection(session, None, []), Collect(MessageUntil, codec, [], script), heard, n, c, after,
                   Some(EngineDisconnected))
    ensures heard == messages
    ensures var asked := Requested(Connection(session, None, []), messages);
            && Conserves(c, asked)
            && c.pending == Waiting(asked) && (c.pending.Some? <==> Holding(asked))
  {
    CollectIsParse(MessageUntil, codec, [], script);
    assert [] + Bytes(script) == Frames(codec, messages);
    StreamRoundTrip(codec, messages);
    ConnectionConserves(session, messages);
  }
}
