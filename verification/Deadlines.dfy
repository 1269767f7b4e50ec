/** What ends a read: the exact outcome of every buffered read, from the events the pipe meets. A read
    passes over interruptions, over an empty pipe before its deadline and over bytes that do not
    complete a frame; the first other event, or the first whole or refused frame, settles it. */
module Deadlines {
  import opened Wrappers
  import opened Numbers
  import opened Framing

  /** An event a read only waits out. An empty pipe is waited out by the two reads with a deadline,
      while the deadline has not passed. */
  predicate WaitsOut(op: Op, e: ReadEvent) {
    e.Interrupted? || (e == WouldBlock(false) && !op.TryFrame?)
  }

  /** An event that leaves a read running as long as no frame is complete. */
  predicate Passes(op: Op, e: ReadEvent) {
    WaitsOut(op, e) || (e.Data? && e.bytes != [])
  }

  predicate AllPass(op: Op, events: seq<ReadEvent>) {
    forall e :: e in events ==> Passes(op, e)
  }

  /** Neither a whole frame nor a refused header. */
  ghost predicate Incomplete<M(!new)>(codec: Codec<M>, bytes: seq<Byte>) {
    ParseFrame(bytes, codec.maxSize) == Success(None)
  }

  lemma IncompletePrefix<M(!new)>(codec: Codec<M>, bytes: seq<Byte>, more: seq<Byte>)
    requires Incomplete(codec, bytes + more)
    ensures Incomplete(codec, bytes)
  {
    if !Incomplete(codec, bytes) {
      ParseFrameIsStable(bytes, more, codec.maxSize);
    }
  }

  /** The first delivery of a script, as far as it fits: what is left of the passing events. */
  lemma FirstChunk(op: Op, events: seq<ReadEvent>, rest: seq<ReadEvent>, capacity: nat) returns (bytes: seq<Byte>, left: seq<ReadEvent>)
    requires capacity > 0 && events != [] && AllPass(op, events) && events[0].Data?
    ensures bytes != [] && NextRead(events + rest, capacity) == (Got(bytes), left + rest)
    ensures AllPass(op, left) && Size(left) < Size(events)
    ensures Bytes(events) == bytes + Bytes(left)
  {
    var all := events[0].bytes;
    assert events[0] in events;
    if |all| <= capacity {
      bytes, left := all, events[1..];
      assert (events + rest)[1..] == left + rest;
    } else {
      bytes, left := all[..capacity], [Data(all[capacity..])] + events[1..];
      PartialReadConserves(events, capacity);
      assert (events + rest)[1..] == events[1..] + rest;
      assert [Data(all[capacity..])] + (events + rest)[1..] == left + rest;
      assert left[1..] == events[1..];
    }
  }

  /** One step of a read whose buffer is incomplete, on a script that starts with a passing event. */
  lemma PassingStep<M(!new)>(
    op: Op, codec: Codec<M>, buffer: seq<Byte>, events: seq<ReadEvent>, rest: seq<ReadEvent>)
    returns (bytes: seq<Byte>, left: seq<ReadEvent>)
    requires events != [] && AllPass(op, events) && Incomplete(codec, buffer)
    ensures AllPass(op, left) && Size(left) < Size(events) && Bytes(events) == bytes + Bytes(left)
    ensures Read(op, codec, buffer, events + rest) == Read(op, codec, buffer + bytes, left + rest)
  {
    assert events[0] in events;
    if events[0].Data? {
      bytes, left := FirstChunk(op, events, rest, CHUNK);
    } else {
      bytes, left := [], events[1..];
      assert (events + rest)[1..] == left + rest;
      assert buffer + [] == buffer;
      assert NextRead(events + rest, CHUNK) == (Refused(events[0]), left + rest);
    }
  }

  /** Passing events leave a read running with their bytes in its buffer. */
  lemma {:induction false} ReadsThrough<M(!new)>(
    op: Op, codec: Codec<M>, buffer: seq<Byte>, events: seq<ReadEvent>, rest: seq<ReadEvent>)
    requires AllPass(op, events) && Incomplete(codec, buffer + Bytes(events))
    ensures Read(op, codec, buffer, events + rest) == Read(op, codec, buffer + Bytes(events), rest)
    decreases Size(events)
  {
    if events == [] {
      assert events + rest == rest && buffer + Bytes(events) == buffer;
    } else {
      IncompletePrefix(codec, buffer, Bytes(events));
      var bytes, left := PassingStep(op, codec, buffer, events, rest);
      Regroup(buffer, bytes, Bytes(left));
      ReadsThrough(op, codec, buffer + bytes, left, rest);
    }
  }

  /** What a read answers to bytes that hold a whole frame or a refused header. */
  ghost predicate Answers<M(!new)>(op: Op, codec: Codec<M>, held: seq<Byte>, step: Step<M>) {
    match ParseFrame(held, codec.maxSize)
    case Failure(error) => step.delivery == Fault(error) && step.drained == []
    case Success(None) => false
    case Success(Some(payload)) =>
      if op.RawUntil? then step.delivery == Raw(payload) && step.drained == Frame(payload)
      else
        match codec.decode(payload)
        case None => step.delivery == Fault(Wire(Malformed)) && step.drained == []
        case Some(m) => step.delivery == Message(m) && step.drained == Frame(payload)
  }

  lemma BufferedAnswer<M(!new)>(op: Op, codec: Codec<M>, buffer: seq<Byte>, more: seq<Byte>, script: seq<ReadEvent>)
    requires !Incomplete(codec, buffer)
    ensures Answers(op, codec, buffer + more, Read(op, codec, buffer, script))
    ensures Read(op, codec, buffer, script).script == script
  {
    ParseFrameIsStable(buffer, more, codec.maxSize);
    if ParseFrame(buffer, codec.maxSize).Success? {
      ParsedFrameIsPrefix(buffer, codec.maxSize);
    }
  }

  /** As soon as the bytes that have passed hold a frame or a refused header, that is the answer, and
      no later event is used up. */
  lemma {:induction false} ReadAnswers<M(!new)>(
    op: Op, codec: Codec<M>, buffer: seq<Byte>, events: seq<ReadEvent>, rest: seq<ReadEvent>)
    returns (unread: seq<ReadEvent>)
    requires AllPass(op, events) && !Incomplete(codec, buffer + Bytes(events))
    ensures Answers(op, codec, buffer + Bytes(events), Read(op, codec, buffer, events + rest))
    ensures Read(op, codec, buffer, events + rest).script == unread + rest
    decreases Size(events)
  {
    if !Incomplete(codec, buffer) {
      BufferedAnswer(op, codec, buffer, Bytes(events), events + rest);
      unread := events;
    } else {
      assert buffer + Bytes([]) == buffer;
      var bytes, left := PassingStep(op, codec, buffer, events, rest);
      Regroup(buffer, bytes, Bytes(left));
      unread := ReadAnswers(op, codec, buffer + bytes, left, rest);
    }
  }

  /** What a read reports at the end of input, from the bytes it holds. */
  ghost predicate ReportsEnd<M(!new)>(op: Op, codec: Codec<M>, held: seq<Byte>, delivery: Delivery<M>) {
    if held == [] then delivery == if op.TryFrame? then Fault(Disconnected) else Absent
    else if |held| < 4 then delivery == Fault(TruncatedHeader(|held|))
    else delivery == Fault(TruncatedPayload(FromLe(held[..4]), |held| - 4))
  }

  /** The outcome when nothing whole has arrived: the first event that does not pass settles it, is
      used up, and everything that had arrived stays in the buffer. */
  lemma ReadStops<M(!new)>(op: Op, codec: Codec<M>, buffer: seq<Byte>, events: seq<ReadEvent>, rest: seq<ReadEvent>)
    requires AllPass(op, events) && Incomplete(codec, buffer + Bytes(events))
    requires rest != [] ==> !Passes(op, rest[0])
    ensures var held := buffer + Bytes(events);
            var step := Read(op, codec, buffer, events + rest);
            && step.drained == [] && step.buffer == held
            && step.script == (if rest == [] then [] else rest[1..])
            && (if rest == [] || rest[0].Data? then ReportsEnd(op, codec, held, step.delivery)
                else if rest[0].Broken? then step.delivery == Fault(Io)
                else if op.TryFrame? then step.delivery == Absent
                else step.delivery == Fault(TimedOut))
  {
    ReadsThrough(op, codec, buffer, events, rest);
    WaitingBufferIsShort(op, codec, buffer + Bytes(events));
  }

  /** Where a script first stops passing. */
  lemma {:induction false} FirstStop(op: Op, script: seq<ReadEvent>) returns (k: nat)
    ensures k <= |script| && AllPass(op, script[..k])
    ensures k < |script| ==> !Passes(op, script[k])
  {
    if script == [] || !Passes(op, script[0]) {
      k := 0;
    } else {
      k := FirstStop(op, script[1..]);
      assert script[..k + 1] == [script[0]] + script[1..][..k];
      k := k + 1;
    }
  }

  /** Waiting is invisible: interruptions, and an empty pipe before the deadline, change neither what
      a waiting read delivers nor what it leaves. */
  lemma WaitingIsInvisible<M(!new)>(
    op: Op, codec: Codec<M>, buffer: seq<Byte>, idle: seq<ReadEvent>, script: seq<ReadEvent>)
    requires Incomplete(codec, buffer)
    requires forall e :: e in idle ==> WaitsOut(op, e)
    ensures Read(op, codec, buffer, idle + script) == Read(op, codec, buffer, script)
  {
    NoBytes(op, idle);
    assert buffer + [] == buffer;
    ReadsThrough(op, codec, buffer, idle, script);
  }

  /** When the deadline has passed after such waiting, the read times out there: it keeps its buffer and leaves
      the rest of the script. */
  lemma TimesOutAfterWaiting<M(!new)>(
    op: Op, codec: Codec<M>, buffer: seq<Byte>, idle: seq<ReadEvent>, rest: seq<ReadEvent>)
    requires !op.TryFrame? && Incomplete(codec, buffer)
    requires forall e :: e in idle ==> WaitsOut(op, e)
    ensures Read(op, codec, buffer, idle + ([WouldBlock(true)] + rest)) == Step.Step(Fault(TimedOut), [], buffer, rest)
  {
    WaitingIsInvisible(op, codec, buffer, idle, [WouldBlock(true)] + rest);
    assert NextRead([WouldBlock(true)] + rest, CHUNK) == (Refused(WouldBlock(true)), rest);
  }

  lemma {:induction false} NoBytes(op: Op, idle: seq<ReadEvent>)
    requires forall e :: e in idle ==> WaitsOut(op, e)
    ensures Bytes(idle) == []
  {
    if idle != [] {
      assert idle[0] in idle;
      NoBytes(op, idle[1..]);
    }
  }

  /** The deadline passes on an empty pipe at event `k`, with no frame complete until then. */
  ghost predicate DeadlineAt<M(!new)>(op: Op, codec: Codec<M>, buffer: seq<Byte>, script: seq<ReadEvent>, k: nat) {
    && k < |script| && script[k] == WouldBlock(true)
    && AllPass(op, script[..k])
    && Incomplete(codec, buffer + Bytes(script[..k]))
  }

  /** A deadline read times out exactly when its deadline passes before a frame is complete, at that
      very event, and it keeps all it has received. */
  lemma TimesOutExactly<M(!new)>(op: Op, codec: Codec<M>, buffer: seq<Byte>, script: seq<ReadEvent>)
    requires !op.TryFrame?
    ensures Read(op, codec, buffer, script).delivery == Fault(TimedOut) <==>
              exists k: nat :: DeadlineAt(op, codec, buffer, script, k)
    ensures forall k: nat :: DeadlineAt(op, codec, buffer, script, k) ==>
              Read(op, codec, buffer, script)
                == Step.Step(Fault(TimedOut), [], buffer + Bytes(script[..k]), script[k + 1..])
  {
    forall k: nat | DeadlineAt(op, codec, buffer, script, k)
      ensures Read(op, codec, buffer, script)
                == Step.Step(Fault(TimedOut), [], buffer + Bytes(script[..k]), script[k + 1..])
    {
      assert script == script[..k] + script[k..];
      ReadStops(op, codec, buffer, script[..k], script[k..]);
    }
    if Read(op, codec, buffer, script).delivery == Fault(TimedOut) {
      var k := FirstStop(op, script);
      assert script == script[..k] + script[k..];
      if Incomplete(codec, buffer + Bytes(script[..k])) {
        ReadStops(op, codec, buffer, script[..k], script[k..]);
        assert DeadlineAt(op, codec, buffer, script, k);
      } else {
        var _ := ReadAnswers(op, codec, buffer, script[..k], script[k..]);
      }
    }
  }

  /** The read that does not wait never times out, and answers "not yet" only to an empty pipe. */
  lemma NotYetOnlyWhenEmpty<M(!new)>(codec: Codec<M>, buffer: seq<Byte>, script: seq<ReadEvent>)
    ensures Read(TryFrame, codec, buffer, script).delivery != Fault(TimedOut)
    ensures Read(TryFrame, codec, buffer, script).delivery == Absent <==>
              exists k: nat :: k < |script| && script[k].WouldBlock? && AllPass(TryFrame, script[..k])
                && Incomplete(codec, buffer + Bytes(script[..k]))
  {
    forall k: nat | k < |script| && script[k].WouldBlock? && AllPass(TryFrame, script[..k])
               && Incomplete(codec, buffer + Bytes(script[..k]))
      ensures Read(TryFrame, codec, buffer, script).delivery == Absent
    {
      assert script == script[..k] + script[k..];
      ReadStops(TryFrame, codec, buffer, script[..k], script[k..]);
    }
    var k := FirstStop(TryFrame, script);
    assert script == script[..k] + script[k..];
    if Incomplete(codec, buffer + Bytes(script[..k])) {
      ReadStops(TryFrame, codec, buffer, script[..k], script[k..]);
    } else {
      var _ := ReadAnswers(TryFrame, codec, buffer, script[..k], script[k..]);
    }
  }

  // ---------------------------------------------------------------- the blocking read

  /** One step of a count on a script that starts with a passing event. */
  lemma CountStep(events: seq<ReadEvent>, rest: seq<ReadEvent>, n: nat) returns (bytes: seq<Byte>, left: seq<ReadEvent>)
    requires n > 0 && events != [] && AllPass(TryFrame, events)
    ensures AllPass(TryFrame, left) && Size(left) < Size(events) && |bytes| <= n
    ensures Bytes(events) == bytes + Bytes(left)
    ensures Completes(ReadExact(events + rest, n), bytes, ReadExact(left + rest, n - |bytes|))
  {
    assert events[0] in events;
    if events[0].Data? {
      bytes, left := FirstChunk(TryFrame, events, rest, n);
    } else {
      bytes, left := [], events[1..];
      assert (events + rest)[1..] == left + rest;
      assert NextRead(events + rest, n) == (Refused(events[0]), left + rest);
      CompletesFromNothing(ReadExact(left + rest, n), []);
    }
  }

  /** A count that the passing events do not fill goes on with what comes after them. */
  lemma {:induction false} CountThrough(events: seq<ReadEvent>, rest: seq<ReadEvent>, n: nat)
    requires AllPass(TryFrame, events) && |Bytes(events)| < n
    ensures Completes(ReadExact(events + rest, n), Bytes(events), ReadExact(rest, n - |Bytes(events)|))
    decreases Size(events)
  {
    if events == [] {
      assert events + rest == rest;
      CompletesFromNothing(ReadExact(rest, n), []);
    } else {
      var bytes, left := CountStep(events, rest, n);
      assert |Bytes(events)| == |bytes| + |Bytes(left)|;
      var whole, most, more := ReadExact(events + rest, n), ReadExact(left + rest, n - |bytes|), ReadExact(rest, n - |Bytes(events)|);
      assert Completes(most, Bytes(left), more) by {
        CountThrough(left, rest, n - |bytes|);
      }
      CompletesBefore(bytes, whole, most, Bytes(left), more);
    }
  }

  lemma CompletesBefore(first: seq<Byte>, whole: Exact, most: Exact, done: seq<Byte>, left: Exact)
    requires Completes(whole, first, most) && Completes(most, done, left)
    ensures Completes(whole, first + done, left)
  {
    if left.bytes.Some? {
      Regroup(first, done, left.bytes.value);
    }
  }

  /** A count that the passing events do fill takes exactly so many of their bytes. */
  lemma {:induction false} CountWithin(events: seq<ReadEvent>, rest: seq<ReadEvent>, n: nat) returns (left: seq<ReadEvent>)
    requires AllPass(TryFrame, events) && n <= |Bytes(events)|
    ensures AllPass(TryFrame, left) && Bytes(left) == Bytes(events)[n..]
    ensures ReadExact(events + rest, n) == Exact.Exact(Some(Bytes(events)[..n]), left + rest)
    decreases Size(events)
  {
    if n == 0 {
      left := events;
    } else {
      var bytes, more := CountStep(events, rest, n);
      left := CountWithin(more, rest, n - |bytes|);
      assert Bytes(events)[..n] == bytes + Bytes(more)[..n - |bytes|];
    }
  }

  /** A handle that fails, or that should have blocked and did not, fails a count that is not filled
      by then. */
  lemma CountFails(events: seq<ReadEvent>, rest: seq<ReadEvent>, n: nat)
    requires AllPass(TryFrame, events) && |Bytes(events)| < n
    requires rest != [] && (rest[0].Broken? || rest[0].WouldBlock?)
    ensures ReadExact(events + rest, n) == Exact.Exact(None, rest[1..])
  {
    CountThrough(events, rest, n);
    assert NextRead(rest, n - |Bytes(events)|) == (Refused(rest[0]), rest[1..]);
  }

  /** In the middle of a message it fails the blocking read, at that very event. */
  lemma BlockingReadFails<M(!new)>(codec: Codec<M>, events: seq<ReadEvent>, rest: seq<ReadEvent>)
    requires AllPass(TryFrame, events) && Incomplete(codec, Bytes(events))
    requires rest != [] && (rest[0].Broken? || rest[0].WouldBlock?)
    ensures ReadBlocking(codec, events + rest) == (Fault(Io), rest[1..])
  {
    if |Bytes(events)| < 4 {
      CountFails(events, rest, 4);
    } else {
      var left := CountWithin(events, rest, 4);
      var header := Bytes(events)[..4];
      assert ReadExact(events + rest, 4) == Exact.Exact(Some(header), left + rest);
      var length := ValidateLength(header, codec.maxSize).value;
      CountFails(left, rest, length);
    }
  }
}
