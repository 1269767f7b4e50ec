/** The pipe reader and writer, step by step, proved against the functions of `Framing`. */
module Pipe {
  import opened Wrappers
  import opened Framing

  /** The handle under a reader, as a script of what its reads will meet. */
  class ByteSource {
    var script: seq<ReadEvent>

    constructor (script: seq<ReadEvent>)
      ensures this.script == script
    {
      this.script := script;
    }

    method Read(capacity: nat) returns (r: ReadResult)
      requires capacity > 0
      modifies this
      ensures (r, script) == NextRead(old(script), capacity)
    {
      var (result, rest) := NextRead(script, capacity);
      r, script := result, rest;
    }

    /** A read into the part of `target` that starts at `from`. */
    method ReadInto(target: array<Byte>, from: nat) returns (r: ReadResult)
      requires from < target.Length
      modifies this, target
      ensures (r, script) == NextRead(old(script), target.Length - from)
      ensures r.Got? ==>
                && from + |r.bytes| <= target.Length
                && target[..from + |r.bytes|] == old(target[..from]) + r.bytes
      ensures r.Refused? ==> target[..] == old(target[..])
    {
      r := Read(target.Length - from);
      if r.Got? {
        var bytes := r.bytes;
        forall i | 0 <= i < |bytes| {
          target[from + i] := bytes[i];
        }
      }
    }
  }

  /** The handle under a writer. It takes bytes in pieces of its own choosing and breaks after
      `capacity` bytes, if ever; all flushes succeed, or only the first `flushes`. */
  class ByteSink {
    var written: seq<Byte>
    var capacity: Option<nat>
    var flushes: Option<nat>
    var piece: nat

    constructor (capacity: Option<nat>, flushes: Option<nat>, piece: nat)
      requires piece > 0
      ensures written == [] && this.capacity == capacity && this.flushes == flushes && this.piece == piece
    {
      this.written, this.capacity, this.flushes, this.piece := [], capacity, flushes, piece;
    }

    method Flush() returns (ok: bool)
      modifies `flushes
      ensures ok <==> old(flushes) != Some(0)
      ensures flushes == OneLess(old(flushes))
    {
      ok := flushes != Some(0);
      flushes := OneLess(flushes);
    }

    /** How many of the offered bytes one write takes. */
    function Takes(offered: nat): nat
      reads this
    {
      var limit := match capacity case None => offered case Some(c) => if c < offered then c else offered;
      if piece < limit then piece else limit
    }

    method Write(bytes: seq<Byte>) returns (count: nat)
      requires bytes != []
      modifies `written, `capacity
      ensures count == old(Takes(|bytes|)) <= |bytes|
      ensures written == old(written) + bytes[..count]
      ensures capacity == match old(capacity) case None => None case Some(c) => Some(c - count)
    {
      count := Takes(|bytes|);
      written := written + bytes[..count];
      if capacity.Some? {
        capacity := Some(capacity.value - count);
      }
    }
  }

  function OneLess(flushes: Option<nat>): Option<nat> {
    if flushes.Some? && flushes.value > 0 then Some(flushes.value - 1) else flushes
  }

  class PipeWriter {
    const inner: ByteSink

    constructor (inner: ByteSink)
      ensures this.inner == inner
    {
      this.inner := inner;
    }

    /** Retries partial writes; stops only when everything is written or the sink takes nothing. */
    method WriteAll(bytes: seq<Byte>) returns (ok: bool)
      requires inner.piece > 0
      modifies inner`written, inner`capacity
      ensures ok <==> (old(inner.capacity).None? || |bytes| <= old(inner.capacity).value)
      ensures ok ==> inner.written == old(inner.written) + bytes
      ensures !ok ==> inner.written == old(inner.written) + bytes[..old(inner.capacity).value]
      ensures inner.capacity.None? <==> old(inner.capacity).None?
      ensures inner.capacity.Some? ==>
                inner.capacity.value == old(inner.capacity).value - (|inner.written| - |old(inner.written)|)
    {
      var sent := 0;
      while sent < |bytes|
        invariant 0 <= sent <= |bytes|
        invariant inner.written == old(inner.written) + bytes[..sent]
        invariant inner.capacity.None? <==> old(inner.capacity).None?
        invariant inner.capacity.Some? ==> inner.capacity.value == old(inner.capacity).value - sent
        decreases |bytes| - sent
      {
        var count := inner.Write(bytes[sent..]);
        if count == 0 {
          return false;
        }
        NextPiece(bytes, sent, count);
        sent := sent + count;
      }
      assert bytes[..sent] == bytes;
      ok := true;
    }

    static lemma NextPiece(bytes: seq<Byte>, sent: nat, count: nat)
      requires sent + count <= |bytes|
      ensures bytes[..sent + count] == bytes[..sent] + bytes[sent..][..count]
    {
      assert bytes[sent..][..count] == bytes[sent..sent + count];
    }

    method Flush() returns (r: Result<(), PipeError>)
      modifies inner`flushes
      ensures r == if old(inner.flushes) == Some(0) then Failure(Io) else Success(())
      ensures inner.flushes == OneLess(old(inner.flushes))
    {
      var ok := inner.Flush();
      r := if ok then Success(()) else Failure(Io);
    }

    /** A message is written as one whole frame, or its encoding error leaves the pipe untouched. */
    method WriteMessage<M(!new)>(codec: Codec<M>, m: M) returns (r: Result<(), PipeError>)
      requires inner.piece > 0
      modifies inner`written, inner`capacity
      ensures codec.encode(m).Failure? ==>
                r == Failure(Wire(codec.encode(m).error)) && inner.written == old(inner.written)
      ensures r.Success? ==>
                codec.encode(m).Success? && inner.written == old(inner.written) + Frame(codec.encode(m).value)
      ensures codec.encode(m).Success? ==>
                var frame := Frame(codec.encode(m).value);
                && (r.Success? <==> old(inner.capacity).None? || |frame| <= old(inner.capacity).value)
                && (r.Failure? ==> r.error == Io && inner.written == old(inner.written) + frame[..old(inner.capacity).value])
      ensures inner.capacity.None? <==> old(inner.capacity).None?
      ensures inner.capacity.Some? ==>
                inner.capacity.value == old(inner.capacity).value - (|inner.written| - |old(inner.written)|)
    {
      match codec.encode(m)
      case Failure(error) =>
        r := Failure(Wire(error));
      case Success(payload) =>
        var frame := LeBytes(|payload|) + payload;
        var ok := WriteAll(frame);
        assert frame == Frame(payload);
        r := if ok then Success(()) else Failure(Io);
    }
  }

  class PipeReader {
    const inner: ByteSource
    var buffer: seq<Byte>

    constructor (inner: ByteSource)
      ensures this.inner == inner && buffer == []
    {
      this.inner := inner;
      this.buffer := [];
    }

    /** Decode the frame at the front of the buffer and drain it; on any other outcome the buffer
        stays as it is. */
    method DecodeBuffered<M(!new)>(op: Op, codec: Codec<M>) returns (r: Result<Option<Delivery<M>>, PipeError>)
      modifies this
      ensures match Framing.DecodeBuffered(op, codec, old(buffer))
              case Failure(error) => r == Failure(error) && buffer == old(buffer)
              case Success(None) => r == Success(None) && buffer == old(buffer)
              case Success(Some(p)) => r == Success(Some(p.0)) && p.1 <= |old(buffer)| && buffer == old(buffer)[p.1..]
    {
      if |buffer| < 4 {
        return Success(None);
      }
      var length := ValidateLength(buffer[..4], codec.maxSize);
      if length.Failure? {
        return Failure(length.error);
      }
      if |buffer| < 4 + length.value {
        return Success(None);
      }
      var payload := buffer[4..4 + length.value];
      var delivery := Raw(payload);
      if !op.RawUntil? {
        var m := codec.decode(payload);
        if m.None? {
          return Failure(Wire(Malformed));
        }
        delivery := Message(m.value);
      }
      buffer := buffer[4 + length.value..];
      r := Success(Some(delivery));
    }

    /** `read_message_until` and `read_raw_frame_until`: the deadline is read after each refusal. */
    method ReadUntil<M(!new)>(op: Op, codec: Codec<M>) returns (d: Delivery<M>)
      requires !op.TryFrame?
      requires |buffer| <= BufferBound(codec.maxSize)
      modifies this, inner
      ensures var step := Framing.Read(op, codec, old(buffer), old(inner.script));
              d == step.delivery && buffer == step.buffer && inner.script == step.script
      ensures |buffer| <= BufferBound(codec.maxSize)
    {
      while true
        invariant |buffer| <= BufferBound(codec.maxSize)
        invariant Framing.Read(op, codec, buffer, inner.script) == Framing.Read(op, codec, old(buffer), old(inner.script))
        decreases Size(inner.script)
      {
        ghost var waiting := buffer;
        var decoded := DecodeBuffered(op, codec);
        match decoded {
          case Failure(error) => return Fault(error);
          case Success(Some(delivery)) => return delivery;
          case Success(None) =>
        }
        WaitingBufferIsShort(op, codec, waiting);
        var chunk := inner.Read(CHUNK);
        match chunk {
          case Got(bytes) =>
            if bytes == [] {
              return AtEof(op, buffer);
            }
            buffer := buffer + bytes;
          case Refused(Interrupted) =>
          case Refused(WouldBlock(expired)) =>
            if expired {
              return Fault(TimedOut);
            }
          case Refused(_) =>
            return Fault(Io);
        }
      }
    }

    /** `try_read_frame`: never waits. */
    method TryReadFrame<M(!new)>(codec: Codec<M>) returns (d: Delivery<M>)
      requires |buffer| <= BufferBound(codec.maxSize)
      modifies this, inner
      ensures var step := Framing.Read(TryFrame, codec, old(buffer), old(inner.script));
              d == step.delivery && buffer == step.buffer && inner.script == step.script
      ensures |buffer| <= BufferBound(codec.maxSize)
    {
      while true
        invariant |buffer| <= BufferBound(codec.maxSize)
        invariant Framing.Read(TryFrame, codec, buffer, inner.script) == Framing.Read(TryFrame, codec, old(buffer), old(inner.script))
        decreases Size(inner.script)
      {
        ghost var waiting := buffer;
        var decoded := DecodeBuffered(TryFrame, codec);
        match decoded {
          case Failure(error) => return Fault(error);
          case Success(Some(delivery)) => return delivery;
          case Success(None) =>
        }
        WaitingBufferIsShort(TryFrame, codec, waiting);
        var chunk := inner.Read(CHUNK);
        match chunk {
          case Got(bytes) =>
            if bytes == [] {
              if buffer == [] {
                return Fault(Disconnected);
              }
              return AtEof(TryFrame, buffer);
            }
            buffer := buffer + bytes;
          case Refused(WouldBlock(_)) => return Absent;
          case Refused(Interrupted) =>
          case Refused(_) =>
            return Fault(Io);
        }
      }
    }

    /** Fill `target` from the handle, counting what arrived before end of input. */
    method ReadExactCount(target: array<Byte>) returns (r: Result<nat, PipeError>)
      modifies inner, target
      ensures inner.script == ReadExact(old(inner.script), target.Length).script
      ensures match ReadExact(old(inner.script), target.Length).bytes
              case None => r == Failure(Io)
              case Some(bytes) => r == Success(|bytes|) && target[..|bytes|] == bytes
    {
      var filled := 0;
      ghost var whole := ReadExact(inner.script, target.Length);
      CompletesFromNothing(whole, target[..0]);
      while filled < target.Length
        invariant 0 <= filled <= target.Length
        invariant Completes(whole, target[..filled], ReadExact(inner.script, target.Length - filled))
        decreases Size(inner.script), target.Length - filled
      {
        var chunk, now := ReadOnce(target, filled, whole);
        if chunk.Refused? && !chunk.event.Interrupted? {
          return Failure(Io);
        }
        if chunk == Got([]) {
          return Success(filled);
        }
        filled := now;
      }
      CompletesWithNothing(whole, target[..filled], ReadExact(inner.script, 0));
      r := Success(filled);
    }

    /** One read towards `whole`, and how much is filled after it. */
    method ReadOnce(target: array<Byte>, filled: nat, ghost whole: Exact) returns (chunk: ReadResult, now: nat)
      requires filled < target.Length
      requires Completes(whole, target[..filled], ReadExact(inner.script, target.Length - filled))
      modifies inner, target
      ensures Size(inner.script) <= Size(old(inner.script))
      ensures filled < now <= target.Length || (now == filled && (chunk.Refused? ==> Size(inner.script) < Size(old(inner.script))))
      ensures now == filled <==> chunk.Refused? || chunk == Got([])
      ensures chunk.Refused? && !chunk.event.Interrupted? ==> whole == Exact(None, inner.script)
      ensures chunk == Got([]) ==> whole == Exact(Some(target[..filled]), inner.script)
      ensures !(chunk.Refused? && !chunk.event.Interrupted?) && chunk != Got([]) ==>
                Completes(whole, target[..now], ReadExact(inner.script, target.Length - now))
    {
      ghost var before := target[..filled];
      ghost var left := ReadExact(inner.script, target.Length - filled);
      now := filled;
      chunk := inner.ReadInto(target, filled);
      if chunk.Refused? {
        assert target[..filled] == target[..][..filled] == before;
      } else if chunk.bytes == [] {
        CompletesWithNothing(whole, before, left);
        assert target[..filled] == before + [] == before;
      } else {
        now := filled + |chunk.bytes|;
        CompletesFurther(whole, before, chunk.bytes, left, ReadExact(inner.script, target.Length - now));
      }
    }

    /** `read_message`: blocks for one whole frame, straight from the handle, past the buffer. */
    method ReadMessage<M(!new)>(codec: Codec<M>) returns (d: Delivery<M>)
      modifies inner
      ensures (d, inner.script) == ReadBlocking(codec, old(inner.script))
    {
      var header := new Byte[4](_ => 0);
      var headerRead := ReadExactCount(header);
      if headerRead.Failure? {
        return Fault(headerRead.error);
      }
      if headerRead.value == 0 {
        return Absent;
      }
      if headerRead.value != 4 {
        return Fault(TruncatedHeader(headerRead.value));
      }
      var length := ValidateLength(header[..4], codec.maxSize);
      if length.Failure? {
        return Fault(length.error);
      }
      var payload := new Byte[length.value](_ => 0);
      var payloadRead := ReadExactCount(payload);
      if payloadRead.Failure? {
        return Fault(payloadRead.error);
      }
      if payloadRead.value != length.value {
        return Fault(TruncatedPayload(length.value, payloadRead.value));
      }
      var m := codec.decode(payload[..length.value]);
      d := if m.None? then Fault(Wire(Malformed)) else Message(m.value);
    }
  }
}
