/** The engine's session loop: read one message, let the session answer it, write the answers. The
    session engine itself is opaque: any function from a state and a message to a new state and
    replies, or to an error. */
module SessionRunner {
  import opened Wrappers
  import opened Framing
  import opened Pipe

  datatype RunnerError = PipeFailure(pipe: PipeError) | SessionFailure(reason: string)

  type Handler<!S, !M, !R> = (S, M) -> Result<(S, seq<R>), string>

  /** The bytes of a batch of replies, up to the first one that does not encode. */
  ghost function ReplyBytes<R(!new)>(codec: Codec<R>, replies: seq<R>): (seq<Byte>, Option<WireError>) {
    if replies == [] then ([], None)
    else
      match codec.encode(replies[0])
      case Failure(error) => ([], Some(error))
      case Success(payload) =>
        var more := ReplyBytes(codec, replies[1..]);
        (Frame(payload) + more.0, more.1)
  }

  /** What a session serves for a stream of messages on a pipe that takes everything, but may fail to
      flush: the bytes it writes and how it ends. */
  ghost function Serve<S(!new), M(!new), R(!new)>(
    codec: Codec<R>, handle: Handler<S, M, R>, state: S, input: Stream<M>, flushes: Option<nat>)
    : (seq<Byte>, RunnerError)
    decreases |input.messages|
  {
    if input.messages == [] then
      ([], PipeFailure(match input.ending case None => Disconnected case Some(error) => error))
    else
      match handle(state, input.messages[0])
      case Failure(reason) => ([], SessionFailure(reason))
      case Success(answer) =>
        var bytes := ReplyBytes(codec, answer.1);
        if bytes.1.Some? then (bytes.0, PipeFailure(Wire(bytes.1.value)))
        else if flushes == Some(0) then (bytes.0, PipeFailure(Io))
        else
          var more := Serve(codec, handle, answer.0, Stream(input.messages[1..], input.ending), OneLess(flushes));
          (bytes.0 + more.0, more.1)
  }

  /** The outcome on a pipe that may break after `capacity` bytes: the same bytes, cut there. */
  ghost predicate Delivers(full: (seq<Byte>, RunnerError), capacity: Option<nat>, written: seq<Byte>, error: RunnerError) {
    if capacity.None? || |full.0| <= capacity.value then written == full.0 && error == full.1
    else written == full.0[..capacity.value] && error == PipeFailure(Io)
  }

  ghost function Left(capacity: Option<nat>, used: nat): Option<nat>
    requires capacity.Some? ==> used <= capacity.value
  {
    match capacity case None => None case Some(c) => Some(c - used)
  }

  /** Write a batch of replies in order; stop at the first failure. */
  method WriteReplies<R(!new)>(writer: PipeWriter, codec: Codec<R>, replies: seq<R>) returns (r: Option<PipeError>)
    requires writer.inner.piece > 0
    modifies writer.inner`written, writer.inner`capacity
    ensures old(writer.inner.written) <= writer.inner.written
    ensures writer.inner.capacity.None? <==> old(writer.inner.capacity).None?
    ensures writer.inner.capacity.Some? ==>
              writer.inner.capacity.value
              == old(writer.inner.capacity).value - (|writer.inner.written| - |old(writer.inner.written)|)
    ensures var full := ReplyBytes(codec, replies);
            var capacity := old(writer.inner.capacity);
            var fits := capacity.None? || |full.0| <= capacity.value;
            && (fits ==> writer.inner.written == old(writer.inner.written) + full.0
                         && r == match full.1 case None => None case Some(error) => Some(Wire(error)))
            && (!fits ==> writer.inner.written == old(writer.inner.written) + full.0[..capacity.value] && r == Some(Io))
  {
    if replies == [] {
      return None;
    }
    ghost var before := writer.inner.written;
    var first := writer.WriteMessage(codec, replies[0]);
    if first.Failure? {
      ghost var rest := ReplyBytes(codec, replies[1..]).0;
      if codec.encode(replies[0]).Success? {
        ghost var frame := Frame(codec.encode(replies[0]).value);
        assert (frame + rest)[..old(writer.inner.capacity).value] == frame[..old(writer.inner.capacity).value];
      }
      return Some(first.error);
    }
    ghost var frame := Frame(codec.encode(replies[0]).value);
    ghost var rest := ReplyBytes(codec, replies[1..]).0;
    r := WriteReplies(writer, codec, replies[1..]);
    assert before + (frame + rest) == (before + frame) + rest;
    if old(writer.inner.capacity).Some? {
      ghost var c := old(writer.inner.capacity).value;
      if c < |frame + rest| {
        assert (frame + rest)[..c] == frame + rest[..c - |frame|];
      }
    }
  }

  /** `run_client_loop`: it hears exactly what blocking reads deliver and writes exactly what the
      session answers, in order, until the first failure of a write or a flush. */
  method RunClientLoop<S(!new), M(!new), R(!new)>(
    reader: PipeReader, writer: PipeWriter, codec: Codec<M>, replyCodec: Codec<R>, start: S, handle: Handler<S, M, R>)
    returns (error: RunnerError, ghost output: seq<Byte>)
    requires writer.inner.piece > 0
    modifies reader.inner, writer.inner
    ensures writer.inner.written == old(writer.inner.written) + output
    ensures Delivers(Serve(replyCodec, handle, start, CollectBlocking(codec, old(reader.inner.script)), old(writer.inner.flushes)),
                     old(writer.inner.capacity), output, error)
  {
    ghost var base := writer.inner.written;
    ghost var capacity := writer.inner.capacity;
    ghost var whole := Serve(replyCodec, handle, start, CollectBlocking(codec, reader.inner.script), writer.inner.flushes);
    var state := start;
    output := [];
    assert output + whole.0 == whole.0 && base + output == base;
    while true
      invariant writer.inner.piece > 0
      invariant Served(base, capacity, whole, output, writer.inner.written, writer.inner.capacity,
                       Serve(replyCodec, handle, state, CollectBlocking(codec, reader.inner.script), writer.inner.flushes))
      decreases Size(reader.inner.script)
    {
      ghost var more := Serve(replyCodec, handle, state, CollectBlocking(codec, reader.inner.script), writer.inner.flushes);
      ghost var written, left := writer.inner.written, writer.inner.capacity;
      ghost var part;
      var next;
      next, error, part := ServeOne(reader, writer, codec, replyCodec, state, handle);
      if next.None? {
        LastTurn(base, capacity, whole, output, written, left, more, part, error);
        output := output + part;
        return;
      }
      state := next.value;
      Turn(base, capacity, whole, output, written, left, more, part,
           Serve(replyCodec, handle, state, CollectBlocking(codec, reader.inner.script), writer.inner.flushes));
      output := output + part;
    }
  }

  /** Where the loop stands: what it has written, the room left on the pipe, and that `whole` is the
      output so far followed by `more`. */
  ghost predicate Served(base: seq<Byte>, capacity: Option<nat>, whole: (seq<Byte>, RunnerError), output: seq<Byte>,
                         written: seq<Byte>, left: Option<nat>, more: (seq<Byte>, RunnerError)) {
    && written == base + output
    && (capacity.Some? ==> |output| <= capacity.value)
    && left == Left(capacity, |output|)
    && Continues(whole, output, more)
  }

  lemma Turn(base: seq<Byte>, capacity: Option<nat>, whole: (seq<Byte>, RunnerError), output: seq<Byte>,
             written: seq<Byte>, left: Option<nat>, more: (seq<Byte>, RunnerError), part: seq<Byte>, after: (seq<Byte>, RunnerError))
    requires Served(base, capacity, whole, output, written, left, more)
    requires left.Some? ==> |part| <= left.value
    requires Continues(more, part, after)
    ensures Served(base, capacity, whole, output + part, written + part, Left(left, |part|), after)
  {
    Regroup(base, output, part);
    Regroup(output, part, after.0);
  }

  lemma LastTurn(base: seq<Byte>, capacity: Option<nat>, whole: (seq<Byte>, RunnerError), output: seq<Byte>,
                 written: seq<Byte>, left: Option<nat>, more: (seq<Byte>, RunnerError), part: seq<Byte>, error: RunnerError)
    requires Served(base, capacity, whole, output, written, left, more)
    requires Delivers(more, left, part, error)
    ensures written + part == base + (output + part)
    ensures Delivers(whole, capacity, output + part, error)
  {
    Regroup(base, output, part);
    PartIsCut(whole, output, more, part, capacity, error);
  }

  /** `whole` is what `done` followed by `more` amounts to. */
  ghost predicate Continues(whole: (seq<Byte>, RunnerError), done: seq<Byte>, more: (seq<Byte>, RunnerError)) {
    whole == (done + more.0, more.1)
  }

  /** One turn of the loop: the state to go on from and the bytes written, or the error that ends it
      with the bytes that still got out. */
  method ServeOne<S(!new), M(!new), R(!new)>(
    reader: PipeReader, writer: PipeWriter, codec: Codec<M>, replyCodec: Codec<R>, state: S, handle: Handler<S, M, R>)
    returns (next: Option<S>, error: RunnerError, ghost part: seq<Byte>)
    requires writer.inner.piece > 0
    modifies reader.inner, writer.inner`written, writer.inner`capacity, writer.inner`flushes
    ensures writer.inner.written == old(writer.inner.written) + part
    ensures old(writer.inner.capacity).Some? ==> |part| <= old(writer.inner.capacity).value
    ensures writer.inner.capacity == Left(old(writer.inner.capacity), |part|)
    ensures var more := Serve(replyCodec, handle, state, CollectBlocking(codec, old(reader.inner.script)), old(writer.inner.flushes));
            && (next.Some? ==>
                  && Size(reader.inner.script) < Size(old(reader.inner.script))
                  && Continues(more, part, Serve(replyCodec, handle, next.value, CollectBlocking(codec, reader.inner.script), writer.inner.flushes)))
            && (next.None? ==> Delivers(more, old(writer.inner.capacity), part, error))
  {
    ghost var input := CollectBlocking(codec, reader.inner.script);
    next, part, error := None, [], PipeFailure(Disconnected);
    assert writer.inner.written + part == writer.inner.written;
    var message := reader.ReadMessage(codec);
    if !message.Message? {
      error := PipeFailure(if message.Fault? then message.error else Disconnected);
      return;
    }
    assert Stream(input.messages[1..], input.ending) == CollectBlocking(codec, reader.inner.script);
    var answer := handle(state, message.m);
    if answer.Failure? {
      error := SessionFailure(answer.error);
      return;
    }
    ghost var batch := ReplyBytes(replyCodec, answer.value.1);
    ghost var capacity := writer.inner.capacity;
    var failure := WriteReplies(writer, replyCodec, answer.value.1);
    part := if capacity.None? || |batch.0| <= capacity.value then batch.0 else batch.0[..capacity.value];
    if failure.Some? {
      error := PipeFailure(failure.value);
      CutBatch(batch.0, Serve(replyCodec, handle, answer.value.0, CollectBlocking(codec, reader.inner.script), OneLess(writer.inner.flushes)).0,
               capacity);
      return;
    }
    var flushed := writer.Flush();
    if flushed.Failure? {
      error := PipeFailure(flushed.error);
    } else {
      next := Some(answer.value.0);
    }
  }

  lemma CutBatch(batch: seq<Byte>, rest: seq<Byte>, capacity: Option<nat>)
    ensures capacity.Some? && capacity.value < |batch| ==> (batch + rest)[..capacity.value] == batch[..capacity.value]
  {
  }

  lemma PartIsCut(whole: (seq<Byte>, RunnerError), done: seq<Byte>, more: (seq<Byte>, RunnerError), part: seq<Byte>,
                  capacity: Option<nat>, error: RunnerError)
    requires capacity.Some? ==> |done| <= capacity.value
    requires Continues(whole, done, more) && Delivers(more, Left(capacity, |done|), part, error)
    ensures Delivers(whole, capacity, done + part, error)
  {
    if capacity.Some? && capacity.value < |whole.0| {
      assert (done + more.0)[..capacity.value] == done + more.0[..capacity.value - |done|];
    }
  }

  /** All the replies of a session whose messages are all answered and encodable. */
  ghost function Answers<S(!new), M(!new), R(!new)>(handle: Handler<S, M, R>, state: S, messages: seq<M>): Option<seq<R>> {
    if messages == [] then Some([])
    else
      match handle(state, messages[0])
      case Failure(_) => None
      case Success(answer) =>
        match Answers(handle, answer.0, messages[1..])
        case None => None
        case Some(more) => Some(answer.1 + more)
  }

  lemma {:induction false} FramesConcat<R(!new)>(codec: Codec<R>, a: seq<R>, b: seq<R>)
    requires forall r :: r in a + b ==> codec.Encodable(r)
    ensures forall r :: r in a ==> codec.Encodable(r)
    ensures forall r :: r in b ==> codec.Encodable(r)
    ensures Frames(codec, a + b) == Frames(codec, a) + Frames(codec, b)
  {
    assert forall r :: r in a || r in b ==> r in a + b;
    if a == [] {
      assert a + b == b;
    } else {
      assert (a + b)[1..] == a[1..] + b;
      FramesConcat(codec, a[1..], b);
      assert codec.Encodable(a[0]) && codec.Encodable((a + b)[0]);
      assert Frame(codec.encode(a[0]).value) + (Frames(codec, a[1..]) + Frames(codec, b))
          == (Frame(codec.encode(a[0]).value) + Frames(codec, a[1..])) + Frames(codec, b);
    }
  }

  lemma {:induction false} ReplyBytesAreFrames<R(!new)>(codec: Codec<R>, replies: seq<R>)
    requires forall r :: r in replies ==> codec.Encodable(r)
    ensures ReplyBytes(codec, replies) == (Frames(codec, replies), None)
  {
    if replies != [] {
      assert codec.Encodable(replies[0]);
      ReplyBytesAreFrames(codec, replies[1..]);
    }
  }

  /** End to end: messages framed by a client, delivered in any pieces to a session that answers them
      all, come back as exactly the frames of all the answers, and the run ends as a disconnection. */
  lemma {:induction false} ServeAnswersEverything<S(!new), M(!new), R(!new)>(
    replyCodec: Codec<R>, handle: Handler<S, M, R>, state: S, messages: seq<M>)
    requires Answers(handle, state, messages).Some?
    requires forall r :: r in Answers(handle, state, messages).value ==> replyCodec.Encodable(r)
    ensures Serve(replyCodec, handle, state, Stream(messages, None), None)
         == (Frames(replyCodec, Answers(handle, state, messages).value), PipeFailure(Disconnected))
  {
    if messages != [] {
      var answer := handle(state, messages[0]).value;
      var more := Answers(handle, answer.0, messages[1..]).value;
      FramesConcat(replyCodec, answer.1, more);
      ReplyBytesAreFrames(replyCodec, answer.1);
      ServeAnswersEverything(replyCodec, handle, answer.0, messages[1..]);
    }
  }

  /** The state of a session after messages that it all answers. */
  ghost function StateAfter<S(!new), M(!new), R(!new)>(handle: Handler<S, M, R>, state: S, messages: seq<M>): S
    requires Answers(handle, state, messages).Some?
  {
    if messages == [] then state
    else StateAfter(handle, handle(state, messages[0]).value.0, messages[1..])
  }

  function FlushesLeft(flushes: Option<nat>, used: nat): Option<nat> {
    match flushes case None => None case Some(n) => Some(if used <= n then n - used else 0)
  }

  lemma ServesOne<S(!new), M(!new), R(!new)>(
    codec: Codec<R>, handle: Handler<S, M, R>, state: S, m: M, rest: Stream<M>, flushes: Option<nat>)
    requires handle(state, m).Success? && flushes != Some(0)
    requires forall r :: r in handle(state, m).value.1 ==> codec.Encodable(r)
    ensures var answer := handle(state, m).value;
            Continues(Serve(codec, handle, state, Stream([m] + rest.messages, rest.ending), flushes),
                      Frames(codec, answer.1), Serve(codec, handle, answer.0, rest, OneLess(flushes)))
  {
    ReplyBytesAreFrames(codec, handle(state, m).value.1);
    assert ([m] + rest.messages)[1..] == rest.messages;
  }

  lemma ContinuesFurther(whole: (seq<Byte>, RunnerError), done: seq<Byte>, between: (seq<Byte>, RunnerError), more: seq<Byte>,
                         rest: (seq<Byte>, RunnerError))
    requires Continues(whole, done, between) && Continues(between, more, rest)
    ensures Continues(whole, done + more, rest)
  {
    Regroup(done, more, rest.0);
  }

  /** As long as messages are answered, answers encode and flushes work, the session writes the frames of all
      answers and goes on with the next message from where it is. */
  lemma {:induction false} ServeGoesOn<S(!new), M(!new), R(!new)>(
    codec: Codec<R>, handle: Handler<S, M, R>, state: S, first: seq<M>, rest: Stream<M>, flushes: Option<nat>)
    requires Answers(handle, state, first).Some?
    requires forall r :: r in Answers(handle, state, first).value ==> codec.Encodable(r)
    requires flushes.None? || |first| <= flushes.value
    ensures Continues(Serve(codec, handle, state, Stream(first + rest.messages, rest.ending), flushes),
                      Frames(codec, Answers(handle, state, first).value),
                      Serve(codec, handle, StateAfter(handle, state, first), rest, FlushesLeft(flushes, |first|)))
    decreases |first|
  {
    if first == [] {
      assert first + rest.messages == rest.messages;
      assert [] + Serve(codec, handle, state, rest, flushes).0 == Serve(codec, handle, state, rest, flushes).0;
    } else {
      var answer := handle(state, first[0]).value;
      var more := Answers(handle, answer.0, first[1..]).value;
      var later := Stream(first[1..] + rest.messages, rest.ending);
      FramesConcat(codec, answer.1, more);
      assert first + rest.messages == [first[0]] + later.messages;
      ServesOne(codec, handle, state, first[0], later, flushes);
      ServeGoesOn(codec, handle, answer.0, first[1..], rest, OneLess(flushes));
      ContinuesFurther(Serve(codec, handle, state, Stream(first + rest.messages, rest.ending), flushes),
                       Frames(codec, answer.1), Serve(codec, handle, answer.0, later, OneLess(flushes)), Frames(codec, more),
                       Serve(codec, handle, StateAfter(handle, state, first), rest, FlushesLeft(flushes, |first|)));
    }
  }

  /** What stops it at a message: the session's own failure, which writes nothing more; an answer that does not
      encode, after the frames of the answers before it; a flush that fails, after all of them. */
  lemma ServeStops<S(!new), M(!new), R(!new)>(
    codec: Codec<R>, handle: Handler<S, M, R>, state: S, m: M, rest: Stream<M>, flushes: Option<nat>, good: seq<R>, bad: seq<R>)
    requires forall r :: r in good ==> codec.Encodable(r)
    requires bad != [] ==> codec.encode(bad[0]).Failure?
    ensures var served := Serve(codec, handle, state, Stream([m] + rest.messages, rest.ending), flushes);
            match handle(state, m)
            case Failure(reason) => served == ([], SessionFailure(reason))
            case Success(answer) =>
              answer.1 == good + bad ==>
                if bad != [] then served == (Frames(codec, good), PipeFailure(Wire(codec.encode(bad[0]).error)))
                else flushes == Some(0) ==> served == (Frames(codec, good), PipeFailure(Io))
  {
    ReplyBytesStop(codec, good, bad);
    assert good + [] == good;
  }

  lemma {:induction false} ReplyBytesStop<R(!new)>(codec: Codec<R>, good: seq<R>, bad: seq<R>)
    requires forall r :: r in good ==> codec.Encodable(r)
    requires bad != [] ==> codec.encode(bad[0]).Failure?
    ensures ReplyBytes(codec, good + bad)
         == (Frames(codec, good), if bad == [] then None else Some(codec.encode(bad[0]).error))
  {
    if good == [] {
      assert good + bad == bad;
    } else {
      assert codec.Encodable(good[0]);
      assert (good + bad)[1..] == good[1..] + bad;
      ReplyBytesStop(codec, good[1..], bad);
    }
  }

  /** And at the end of the stream it reports how the stream ended. */
  lemma ServeEnds<S(!new), M(!new), R(!new)>(
    codec: Codec<R>, handle: Handler<S, M, R>, state: S, messages: seq<M>, ending: Option<PipeError>)
    requires Answers(handle, state, messages).Some?
    requires forall r :: r in Answers(handle, state, messages).value ==> codec.Encodable(r)
    ensures Serve(codec, handle, state, Stream(messages, ending), None)
         == (Frames(codec, Answers(handle, state, messages).value),
             PipeFailure(match ending case None => Disconnected case Some(error) => error))
  {
    ServeGoesOn(codec, handle, state, messages, Stream([], ending), None);
    assert messages + [] == messages;
    assert Frames(codec, Answers(handle, state, messages).value) + [] == Frames(codec, Answers(handle, state, messages).value);
  }
}
