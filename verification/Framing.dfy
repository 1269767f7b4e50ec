/** Length-prefixed framing of the pipe protocol: the byte layout of a frame, the opaque message
    codec, the scripted byte source, and the functional specification of every read operation.

    The reference meaning of a byte stream is `ParseStream`, which looks at the whole stream at once
    and knows nothing about chunks, time or buffers. */
module Framing {
  import opened Wrappers
  import opened Numbers

  newtype Byte = b: int | 0 <= b < 256

  const CHUNK: nat := 4096

  // ---------------------------------------------------------------- headers

  /** The little-endian bytes of `n as u32`; the cast drops everything above 32 bits. */
  function LeBytes(n: nat): (bytes: seq<Byte>)
    ensures |bytes| == 4
  {
    [(n % 256) as Byte, (n / 0x100 % 256) as Byte, (n / 0x1_0000 % 256) as Byte, (n / 0x100_0000 % 256) as Byte]
  }

  function FromLe(header: seq<Byte>): nat
    requires |header| == 4
  {
    header[0] as nat + 0x100 * header[1] as nat + 0x1_0000 * header[2] as nat + 0x100_0000 * header[3] as nat
  }

  lemma LeRoundTrip(n: nat)
    ensures FromLe(LeBytes(n)) == n % U32_MODULUS
  {
    var a := n / 0x100;
    var b := a / 0x100;
    var c := b / 0x100;
    assert n / 0x1_0000 == b && n / 0x100_0000 == c;
    assert n == n % 256 + 0x100 * (a % 256 + 0x100 * (b % 256 + 0x100 * c));
    assert c == 256 * (c / 256) + c % 256;
    assert n == FromLe(LeBytes(n)) + U32_MODULUS * (c / 256);
  }

  lemma LeUnique(header: seq<Byte>)
    requires |header| == 4
    ensures FromLe(header) < U32_MODULUS && LeBytes(FromLe(header)) == header
  {
    var n := FromLe(header);
    assert n / 0x100 == header[1] as nat + 0x100 * header[2] as nat + 0x1_0000 * header[3] as nat;
    assert n / 0x1_0000 == header[2] as nat + 0x100 * header[3] as nat;
    assert n / 0x100_0000 == header[3] as nat;
  }

  // ---------------------------------------------------------------- codec and errors

  datatype WireError =
    | InvalidFrameLength
    | SizeExceeded(actual: nat, max: nat)
    | Malformed

  datatype PipeError =
    | Io
    | Wire(wire: WireError)
    | Disconnected
    | TimedOut
    | TruncatedHeader(available: nat)
    | TruncatedPayload(expected: nat, available: nat)

  /** The message codec, whose internals are not part of this model. */
  datatype Codec<!M(!new)> = Codec(
    maxSize: nat,
    encode: M -> Result<seq<Byte>, WireError>,
    decode: seq<Byte> -> Option<M>)
  {
    ghost predicate Valid() {
      && maxSize < U32_MODULUS
      && forall m :: encode(m).Success? ==>
           1 <= |encode(m).value| <= maxSize && decode(encode(m).value) == Some(m)
    }

    ghost predicate Encodable(m: M) {
      encode(m).Success?
    }
  }

  function Frame(payload: seq<Byte>): (frame: seq<Byte>)
    ensures |frame| == 4 + |payload|
  {
    LeBytes(|payload|) + payload
  }

  /** What a writer puts on the pipe for a list of messages. */
  ghost function Frames<M(!new)>(codec: Codec<M>, messages: seq<M>): seq<Byte>
    requires forall m :: m in messages ==> codec.Encodable(m)
  {
    if messages == [] then []
    else
      assert codec.Encodable(messages[0]);
      Frame(codec.encode(messages[0]).value) + Frames(codec, messages[1..])
  }

  lemma {:induction false} FramesSnoc<M(!new)>(codec: Codec<M>, messages: seq<M>, m: M)
    requires codec.Encodable(m) && forall x :: x in messages ==> codec.Encodable(x)
    ensures forall x :: x in messages + [m] ==> codec.Encodable(x)
    ensures Frames(codec, messages + [m]) == Frames(codec, messages) + Frame(codec.encode(m).value)
  {
    if messages == [] {
      assert [m][1..] == [];
    } else {
      assert codec.Encodable(messages[0]);
      assert (messages + [m])[1..] == messages[1..] + [m];
      FramesSnoc(codec, messages[1..], m);
      Regroup(Frame(codec.encode(messages[0]).value), Frames(codec, messages[1..]), Frame(codec.encode(m).value));
    }
  }

  // ---------------------------------------------------------------- one frame

  function ValidateLength(header: seq<Byte>, maxSize: nat): Result<nat, PipeError>
    requires |header| == 4
  {
    var length := FromLe(header);
    if length == 0 then Failure(Wire(InvalidFrameLength))
    else if length > maxSize then Failure(Wire(SizeExceeded(length, maxSize)))
    else Success(length)
  }

  /** The payload of the first frame in `bytes`, nothing while it is incomplete, or the reason its
      header is refused. */
  function ParseFrame(bytes: seq<Byte>, maxSize: nat): (r: Result<Option<seq<Byte>>, PipeError>)
    ensures r.Success? && r.value.Some? ==>
              && 1 <= |r.value.value| <= maxSize
              && 4 + |r.value.value| <= |bytes|
    ensures r == Success(None) && |bytes| >= 4 ==>
              1 <= FromLe(bytes[..4]) <= maxSize && |bytes| - 4 < FromLe(bytes[..4])
  {
    if |bytes| < 4 then Success(None)
    else
      match ValidateLength(bytes[..4], maxSize)
      case Failure(error) => Failure(error)
      case Success(length) =>
        if |bytes| < 4 + length then Success(None) else Success(Some(bytes[4..4 + length]))
  }

  /** A frame that is found is a prefix of the bytes. */
  lemma ParsedFrameIsPrefix(bytes: seq<Byte>, maxSize: nat)
    requires ParseFrame(bytes, maxSize).Success? && ParseFrame(bytes, maxSize).value.Some?
    ensures var payload := ParseFrame(bytes, maxSize).value.value;
            bytes[..4 + |payload|] == Frame(payload)
  {
    LeUnique(bytes[..4]);
  }

  /** More bytes never change a decision already taken. */
  lemma ParseFrameIsStable(bytes: seq<Byte>, more: seq<Byte>, maxSize: nat)
    requires ParseFrame(bytes, maxSize) != Success(None)
    ensures ParseFrame(bytes + more, maxSize) == ParseFrame(bytes, maxSize)
  {
    assert (bytes + more)[..4] == bytes[..4];
    var header := ValidateLength(bytes[..4], maxSize);
    if header.Success? {
      assert (bytes + more)[4..4 + header.value] == bytes[4..4 + header.value];
    }
  }

  /** A payload behind a header that announces its length, and a part of it. */
  lemma AnnouncedFrame(header: seq<Byte>, payload: seq<Byte>, rest: seq<Byte>, maxSize: nat)
    requires |header| == 4 && FromLe(header) == |payload| && 1 <= |payload| <= maxSize
    ensures ParseFrame(header + payload + rest, maxSize) == Success(Some(payload))
  {
    var bytes := header + payload + rest;
    assert bytes[..4] == header;
    assert bytes[4..4 + |payload|] == payload;
  }

  lemma AnnouncedPart(header: seq<Byte>, payload: seq<Byte>, k: nat, maxSize: nat)
    requires |header| == 4 && FromLe(header) == |payload| && 1 <= |payload| <= maxSize && k < 4 + |payload|
    ensures ParseFrame((header + payload)[..k], maxSize) == Success(None)
    ensures k >= 4 ==> (header + payload)[..k][..4] == header
  {
    if k >= 4 {
      assert (header + payload)[..k][..4] == header;
    }
  }

  lemma LengthHeader(payload: seq<Byte>)
    requires |payload| < U32_MODULUS
    ensures FromLe(LeBytes(|payload|)) == |payload|
  {
    LeRoundTrip(|payload|);
    assert |payload| % U32_MODULUS == |payload|;
  }

  /** A header that announces nothing, or more than is allowed, is refused for what it announces, whatever
      follows it. */
  lemma RefusedLength(length: nat, rest: seq<Byte>, maxSize: nat)
    requires length < U32_MODULUS && (length == 0 || length > maxSize)
    ensures ParseFrame(LeBytes(length) + rest, maxSize)
         == Failure(Wire(if length == 0 then InvalidFrameLength else SizeExceeded(length, maxSize)))
  {
    LeRoundTrip(length);
    assert length % U32_MODULUS == length;
    assert (LeBytes(length) + rest)[..4] == LeBytes(length);
  }

  lemma ParseWrittenFrame(payload: seq<Byte>, rest: seq<Byte>, maxSize: nat)
    requires 1 <= |payload| <= maxSize < U32_MODULUS
    ensures ParseFrame(Frame(payload) + rest, maxSize) == Success(Some(payload))
  {
    LengthHeader(payload);
    AnnouncedFrame(LeBytes(|payload|), payload, rest, maxSize);
  }

  /** A strict prefix of a written frame is never mistaken for a frame nor refused. */
  lemma ParsePartialFrame(payload: seq<Byte>, k: nat, maxSize: nat)
    requires 1 <= |payload| <= maxSize < U32_MODULUS
    requires k < 4 + |payload|
    ensures ParseFrame(Frame(payload)[..k], maxSize) == Success(None)
  {
    LengthHeader(payload);
    AnnouncedPart(LeBytes(|payload|), payload, k, maxSize);
  }

  /** What end of input means for the bytes left over. */
  function EndOfInput(bytes: seq<Byte>): Option<PipeError> {
    if |bytes| == 0 then None
    else if |bytes| <= 3 then Some(TruncatedHeader(|bytes|))
    else Some(TruncatedPayload(FromLe(bytes[..4]), |bytes| - 4))
  }

  // ---------------------------------------------------------------- reference meaning of a stream

  /** The messages of a stream and how it ends: cleanly (`None`) or with the first error. */
  datatype Stream<M> = Stream(messages: seq<M>, ending: Option<PipeError>)

  ghost function ParseStream<M(!new)>(codec: Codec<M>, bytes: seq<Byte>): Stream<M>
    decreases |bytes|
  {
    match ParseFrame(bytes, codec.maxSize)
    case Failure(error) => Stream([], Some(error))
    case Success(None) => Stream([], EndOfInput(bytes))
    case Success(Some(payload)) =>
      match codec.decode(payload)
      case None => Stream([], Some(Wire(Malformed)))
      case Some(m) =>
        var rest := ParseStream(codec, bytes[4 + |payload|..]);
        Stream([m] + rest.messages, rest.ending)
  }

  /** A written frame in front of a stream is its first message. */
  lemma NextFrame<M(!new)>(codec: Codec<M>, payload: seq<Byte>, rest: seq<Byte>)
    requires 1 <= |payload| <= codec.maxSize < U32_MODULUS && codec.decode(payload).Some?
    ensures var after := ParseStream(codec, rest);
            ParseStream(codec, Frame(payload) + rest) == Stream([codec.decode(payload).value] + after.messages, after.ending)
  {
    ParseWrittenFrame(payload, rest, codec.maxSize);
    assert (Frame(payload) + rest)[4 + |payload|..] == rest;
  }

  /** Framing is a round trip: the stream of the written frames is the messages, ended cleanly. */
  lemma {:induction false} StreamRoundTrip<M(!new)>(codec: Codec<M>, messages: seq<M>)
    requires codec.Valid()
    requires forall m :: m in messages ==> codec.Encodable(m)
    ensures ParseStream(codec, Frames(codec, messages)) == Stream(messages, None)
  {
    if messages != [] {
      assert codec.Encodable(messages[0]);
      var payload := codec.encode(messages[0]).value;
      var rest := Frames(codec, messages[1..]);
      NextFrame(codec, payload, rest);
      StreamRoundTrip(codec, messages[1..]);
    }
  }

  /** The error a reader must report for `payload`'s frame cut after `k` bytes. */
  function CutError(payload: seq<Byte>, k: nat): PipeError
    requires 0 < k
  {
    if k < 4 then TruncatedHeader(k) else TruncatedPayload(|payload|, k - 4)
  }

  lemma CutFrame<M(!new)>(codec: Codec<M>, payload: seq<Byte>, k: nat)
    requires 1 <= |payload| <= codec.maxSize < U32_MODULUS
    requires 0 < k < 4 + |payload|
    ensures ParseStream(codec, Frame(payload)[..k]) == Stream([], Some(CutError(payload, k)))
  {
    ParsePartialFrame(payload, k, codec.maxSize);
    CutEnding(payload, k);
  }

  lemma CutEnding(payload: seq<Byte>, k: nat)
    requires 1 <= |payload| < U32_MODULUS && 0 < k < 4 + |payload|
    ensures EndOfInput(Frame(payload)[..k]) == Some(CutError(payload, k))
  {
    LengthHeader(payload);
    AnnouncedPart(LeBytes(|payload|), payload, k, |payload|);
  }

  /** A stream cut inside a frame yields the whole frames before the cut and then a truncation error. */
  lemma {:induction false} CutStream<M(!new)>(codec: Codec<M>, messages: seq<M>, last: seq<Byte>, k: nat)
    requires codec.Valid() && 1 <= |last| <= codec.maxSize
    requires forall m :: m in messages ==> codec.Encodable(m)
    requires 0 < k < 4 + |last|
    ensures ParseStream(codec, Frames(codec, messages) + Frame(last)[..k])
         == Stream(messages, Some(CutError(last, k)))
  {
    var tail := Frame(last)[..k];
    if messages == [] {
      assert Frames(codec, messages) + tail == tail;
      CutFrame(codec, last, k);
    } else {
      assert codec.Encodable(messages[0]);
      var payload := codec.encode(messages[0]).value;
      var rest := Frames(codec, messages[1..]) + tail;
      Regroup(Frame(payload), Frames(codec, messages[1..]), tail);
      NextFrame(codec, payload, rest);
      CutStream(codec, messages[1..], last, k);
    }
  }

  // ---------------------------------------------------------------- the scripted byte source

  /** One thing a read of the pipe can meet. `WouldBlock` carries whether the caller's deadline has
      passed when the clock is read after it. An exhausted script is end of input for ever. */
  datatype ReadEvent =
    | Data(bytes: seq<Byte>)
    | Interrupted
    | WouldBlock(expired: bool)
    | Broken

  datatype ReadResult = Got(bytes: seq<Byte>) | Refused(event: ReadEvent)

  function NextRead(script: seq<ReadEvent>, capacity: nat): (r: (ReadResult, seq<ReadEvent>))
    requires capacity > 0
    ensures Size(r.1) <= Size(script)
    ensures script != [] ==> Size(r.1) < Size(script)
    ensures r.0.Got? ==> |r.0.bytes| <= capacity
    ensures r.0.Refused? ==> script != [] && !r.0.event.Data? && r.0.event == script[0]
    ensures r.0.Got? && r.0.bytes != [] ==> script != []
  {
    if script == [] then (Got([]), [])
    else
      match script[0]
      case Data(bytes) =>
        if |bytes| <= capacity then (Got(bytes), script[1..])
        else (Got(bytes[..capacity]), [Data(bytes[capacity..])] + script[1..])
      case event => (Refused(event), script[1..])
  }

  /** Termination measure: events left plus bytes left. */
  function Size(script: seq<ReadEvent>): nat {
    if script == [] then 0
    else 1 + (if script[0].Data? then |script[0].bytes| else 0) + Size(script[1..])
  }

  /** The bytes a script will still deliver. */
  function Bytes(script: seq<ReadEvent>): seq<Byte> {
    if script == [] then []
    else (if script[0].Data? then script[0].bytes else []) + Bytes(script[1..])
  }

  /** A working pipe: no broken reads and no zero-byte delivery before the end. */
  predicate Clean(script: seq<ReadEvent>) {
    forall e :: e in script ==> !e.Broken? && (e.Data? ==> e.bytes != [])
  }

  /** A handle in blocking mode never reports `WouldBlock`. */
  predicate Blocking(script: seq<ReadEvent>) {
    forall e :: e in script ==> !e.WouldBlock?
  }

  lemma NextReadConserves(script: seq<ReadEvent>, capacity: nat)
    requires capacity > 0
    ensures var (r, rest) := NextRead(script, capacity);
            && Bytes(script) == (if r.Got? then r.bytes else []) + Bytes(rest)
            && (Clean(script) ==> Clean(rest) && (r.Got? && r.bytes == [] ==> script == []))
            && (Blocking(script) ==> Blocking(rest))
  {
    if script != [] && script[0].Data? && |script[0].bytes| > capacity {
      PartialReadConserves(script, capacity);
    }
  }

  /** A delivery larger than the slice is read in two. */
  lemma PartialReadConserves(script: seq<ReadEvent>, capacity: nat)
    requires 0 < capacity && script != [] && script[0].Data? && |script[0].bytes| > capacity
    ensures var bytes := script[0].bytes;
            var rest := [Data(bytes[capacity..])] + script[1..];
            Bytes(script) == bytes[..capacity] + Bytes(rest) && (forall e :: e in rest[1..] ==> e in script)
    ensures forall e :: e in [Data(script[0].bytes[capacity..])] + script[1..] ==> e == Data(script[0].bytes[capacity..]) || e in script
  {
    var bytes := script[0].bytes;
    var rest := [Data(bytes[capacity..])] + script[1..];
    assert rest[1..] == script[1..];
    Regroup(bytes[..capacity], bytes[capacity..], Bytes(script[1..]));
    assert bytes == bytes[..capacity] + bytes[capacity..];
  }

  // ---------------------------------------------------------------- buffered reads

  /** The three reads that work through the reader's buffer. */
  datatype Op = MessageUntil | RawUntil | TryFrame

  /** `Absent` is `Ok(None)`: the end of the stream for the two deadline reads, "not yet" for
      `try_read_frame`. */
  datatype Delivery<M> = Message(m: M) | Raw(payload: seq<Byte>) | Absent | Fault(error: PipeError)

  /** What a read returned, the bytes it drained from the buffer, and the state it left behind. */
  datatype Step<M> = Step(
    delivery: Delivery<M>, drained: seq<Byte>, buffer: seq<Byte>, script: seq<ReadEvent>)

  function DecodeBuffered<M(!new)>(op: Op, codec: Codec<M>, buffer: seq<Byte>)
    : Result<Option<(Delivery<M>, nat)>, PipeError>
  {
    match ParseFrame(buffer, codec.maxSize)
    case Failure(error) => Failure(error)
    case Success(None) => Success(None)
    case Success(Some(payload)) =>
      if op.RawUntil? then Success(Some((Raw(payload), 4 + |payload|)))
      else
        match codec.decode(payload)
        case None => Failure(Wire(Malformed))
        case Some(m) => Success(Some((Message(m), 4 + |payload|)))
  }

  function AtEof<M>(op: Op, buffer: seq<Byte>): Delivery<M> {
    if op.TryFrame? && buffer == [] then Fault(Disconnected)
    else
      match EndOfInput(buffer)
      case None => Absent
      case Some(error) => Fault(error)
  }

  function Read<M(!new)>(op: Op, codec: Codec<M>, buffer: seq<Byte>, script: seq<ReadEvent>): Step<M>
    decreases Size(script)
  {
    match DecodeBuffered(op, codec, buffer)
    case Failure(error) => Step(Fault(error), [], buffer, script)
    case Success(Some((delivery, n))) => Step(delivery, buffer[..n], buffer[n..], script)
    case Success(None) =>
      var (r, rest) := NextRead(script, CHUNK);
      match r
      case Got(bytes) =>
        if bytes == [] then Step(AtEof(op, buffer), [], buffer, rest)
        else Read(op, codec, buffer + bytes, rest)
      case Refused(WouldBlock(expired)) =>
        if op.TryFrame? then Step(Absent, [], buffer, rest)
        else if expired then Step(Fault(TimedOut), [], buffer, rest)
        else Read(op, codec, buffer, rest)
      case Refused(Interrupted) => Read(op, codec, buffer, rest)
      case Refused(_) => Step(Fault(Io), [], buffer, rest)
  }

  /** The bytes a delivery accounts for. */
  ghost predicate Accounts<M(!new)>(codec: Codec<M>, delivery: Delivery<M>, drained: seq<Byte>) {
    match delivery
    case Message(m) => exists p :: drained == Frame(p) && 1 <= |p| <= codec.maxSize && codec.decode(p) == Some(m)
    case Raw(p) => drained == Frame(p) && 1 <= |p| <= codec.maxSize
    case _ => drained == []
  }

  /** The largest buffer a reader can ever hold. */
  function BufferBound(maxSize: nat): nat { maxSize + 3 + CHUNK }

  lemma DecodeAccounts<M(!new)>(op: Op, codec: Codec<M>, buffer: seq<Byte>)
    requires DecodeBuffered(op, codec, buffer).Success? && DecodeBuffered(op, codec, buffer).value.Some?
    ensures var (delivery, n) := DecodeBuffered(op, codec, buffer).value.value;
            n <= |buffer| && (delivery.Message? || delivery.Raw?) && Accounts(codec, delivery, buffer[..n])
  {
    var payload := ParseFrame(buffer, codec.maxSize).value.value;
    ParsedFrameIsPrefix(buffer, codec.maxSize);
    PayloadAccounts(codec, payload);
  }

  lemma PayloadAccounts<M(!new)>(codec: Codec<M>, payload: seq<Byte>)
    requires 1 <= |payload| <= codec.maxSize
    ensures Accounts(codec, Raw(payload), Frame(payload))
    ensures codec.decode(payload).Some? ==> Accounts(codec, Message(codec.decode(payload).value), Frame(payload))
  {
  }

  /** A buffer that holds no whole frame and no refused header is short. */
  lemma WaitingBufferIsShort<M(!new)>(op: Op, codec: Codec<M>, buffer: seq<Byte>)
    requires DecodeBuffered(op, codec, buffer) == Success(None)
    ensures ParseFrame(buffer, codec.maxSize) == Success(None)
    ensures |buffer| <= codec.maxSize + 3
    ensures |buffer| >= 4 ==> |buffer| - 4 < FromLe(buffer[..4]) <= codec.maxSize
  {
  }

  lemma Regroup(a: seq<Byte>, b: seq<Byte>, c: seq<Byte>)
    ensures a + (b + c) == (a + b) + c
  {
  }

  /** One read, whatever its outcome, loses no byte: faults and timeouts discard nothing. */
  lemma {:induction false} ReadConserves<M(!new)>(
    op: Op, codec: Codec<M>, buffer: seq<Byte>, script: seq<ReadEvent>)
    ensures var step := Read(op, codec, buffer, script);
            buffer + Bytes(script) == step.drained + (step.buffer + Bytes(step.script))
    decreases Size(script)
  {
    match DecodeBuffered(op, codec, buffer)
    case Failure(_) =>
    case Success(Some(p)) =>
      Regroup(buffer[..p.1], buffer[p.1..], Bytes(script));
      assert buffer == buffer[..p.1] + buffer[p.1..];
    case Success(None) =>
      NextReadConserves(script, CHUNK);
      var (r, rest) := NextRead(script, CHUNK);
      match r
      case Got(bytes) =>
        if bytes != [] {
          Regroup(buffer, bytes, Bytes(rest));
          ReadConserves(op, codec, buffer + bytes, rest);
        }
      case Refused(event) =>
        assert Bytes(script) == Bytes(rest);
        if event.Interrupted? || (event.WouldBlock? && !op.TryFrame? && !event.expired) {
          ReadConserves(op, codec, buffer, rest);
        }
  }

  /** The bytes a read drains are exactly the frame of what it returns. */
  lemma {:induction false} ReadAccounts<M(!new)>(
    op: Op, codec: Codec<M>, buffer: seq<Byte>, script: seq<ReadEvent>)
    ensures var step := Read(op, codec, buffer, script);
            Accounts(codec, step.delivery, step.drained)
    decreases Size(script)
  {
    match DecodeBuffered(op, codec, buffer)
    case Failure(_) =>
    case Success(Some(_)) =>
      DecodeAccounts(op, codec, buffer);
    case Success(None) =>
      var (r, rest) := NextRead(script, CHUNK);
      match r
      case Got(bytes) =>
        if bytes != [] {
          ReadAccounts(op, codec, buffer + bytes, rest);
        }
      case Refused(event) =>
        if event.Interrupted? || (event.WouldBlock? && !op.TryFrame? && !event.expired) {
          ReadAccounts(op, codec, buffer, rest);
        }
  }

  /** The buffer stays bounded, and a truncation report always names a legal frame that is really
      incomplete. */
  lemma {:induction false} ReadIsBounded<M(!new)>(
    op: Op, codec: Codec<M>, buffer: seq<Byte>, script: seq<ReadEvent>)
    requires |buffer| <= BufferBound(codec.maxSize)
    ensures var step := Read(op, codec, buffer, script);
            && |step.buffer| <= BufferBound(codec.maxSize)
            && (step.delivery.Fault? && step.delivery.error.TruncatedPayload? ==>
                  && step.delivery.error.available < step.delivery.error.expected <= codec.maxSize)
            && (step.delivery.Fault? && step.delivery.error.TruncatedHeader? ==>
                  1 <= step.delivery.error.available <= 3)
    decreases Size(script)
  {
    var decoded := DecodeBuffered(op, codec, buffer);
    if decoded == Success(None) {
      WaitingBufferIsShort(op, codec, buffer);
      var (r, rest) := NextRead(script, CHUNK);
      match r
      case Got(bytes) =>
        if bytes != [] {
          ReadIsBounded(op, codec, buffer + bytes, rest);
        }
      case Refused(event) =>
        if event.Interrupted? || (event.WouldBlock? && !op.TryFrame? && !event.expired) {
          ReadIsBounded(op, codec, buffer, rest);
        }
    }
  }

  // ---------------------------------------------------------------- runs mixing every buffered read

  /** The bytes returned by a run of reads, in order, and the state it ends in. */
  datatype Run<M> = Run(deliveries: seq<Delivery<M>>, drained: seq<Byte>, buffer: seq<Byte>, script: seq<ReadEvent>)

  function Perform<M(!new)>(ops: seq<Op>, codec: Codec<M>, buffer: seq<Byte>, script: seq<ReadEvent>): Run<M> {
    if ops == [] then Run([], [], buffer, script)
    else
      var step := Read(ops[0], codec, buffer, script);
      var run := Perform(ops[1..], codec, step.buffer, step.script);
      Run([step.delivery] + run.deliveries, step.drained + run.drained, run.buffer, run.script)
  }

  /** The bytes drained by a run are, in order, the frames of what its reads returned. */
  ghost predicate AccountsAll<M(!new)>(codec: Codec<M>, deliveries: seq<Delivery<M>>, drained: seq<Byte>) {
    if deliveries == [] then drained == []
    else
      exists k :: 0 <= k <= |drained|
        && Accounts(codec, deliveries[0], drained[..k]) && AccountsAll(codec, deliveries[1..], drained[k..])
  }

  /** Over any mix of reads from a fresh reader: the bytes received so far are exactly the returned
      frames followed by the buffer, and the buffer is bounded. */
  lemma {:induction false} RunConserves<M(!new)>(
    ops: seq<Op>, codec: Codec<M>, buffer: seq<Byte>, script: seq<ReadEvent>)
    requires |buffer| <= BufferBound(codec.maxSize)
    ensures var run := Perform(ops, codec, buffer, script);
            && buffer + Bytes(script) == run.drained + (run.buffer + Bytes(run.script))
            && |run.buffer| <= BufferBound(codec.maxSize)
            && |run.deliveries| == |ops| && AccountsAll(codec, run.deliveries, run.drained)
  {
    if ops != [] {
      var step := Read(ops[0], codec, buffer, script);
      ReadConserves(ops[0], codec, buffer, script);
      ReadIsBounded(ops[0], codec, buffer, script);
      RunConserves(ops[1..], codec, step.buffer, step.script);
      var run := Perform(ops[1..], codec, step.buffer, step.script);
      Regroup(step.drained, run.drained, run.buffer + Bytes(run.script));
      ReadAccounts(ops[0], codec, buffer, script);
      var deliveries, drained := [step.delivery] + run.deliveries, step.drained + run.drained;
      assert drained[..|step.drained|] == step.drained && drained[|step.drained|..] == run.drained;
      assert deliveries[1..] == run.deliveries;
    }
  }

  /** A payload that does not decode blocks the reader for good: decoding reads fail in the same way
      for ever without touching the pipe, and only a raw read gets past it. */
  lemma UndecodableFrameBlocks<M(!new)>(codec: Codec<M>, payload: seq<Byte>, rest: seq<Byte>, script: seq<ReadEvent>, op: Op)
    requires 1 <= |payload| <= codec.maxSize < U32_MODULUS && codec.decode(payload) == None
    ensures var buffer := Frame(payload) + rest;
            Read(op, codec, buffer, script) ==
              if op.RawUntil? then Step(Raw(payload), Frame(payload), rest, script)
              else Step(Fault(Wire(Malformed)), [], buffer, script)
  {
    ParseWrittenFrame(payload, rest, codec.maxSize);
    var buffer := Frame(payload) + rest;
    assert buffer[..4 + |payload|] == Frame(payload);
    assert buffer[4 + |payload|..] == rest;
  }

  // ---------------------------------------------------------------- whole-stream behaviour

  /** Repeating a decoding read until it reports the end or an error, retrying after a timeout
      (`read_message_until`) or after "not yet" (`try_read_frame`). */
  ghost function Collect<M(!new)>(op: Op, codec: Codec<M>, buffer: seq<Byte>, script: seq<ReadEvent>): Stream<M>
    requires !op.RawUntil?
    decreases |buffer| + |Bytes(script)|, Size(script)
  {
    var step := Read(op, codec, buffer, script);
    ReadProgress(op, codec, buffer, script);
    match step.delivery
    case Message(m) =>
      var rest := Collect(op, codec, step.buffer, step.script);
      Stream([m] + rest.messages, rest.ending)
    case Absent =>
      if op.TryFrame? then Collect(op, codec, step.buffer, step.script) else Stream([], None)
    case Fault(TimedOut) => Collect(op, codec, step.buffer, step.script)
    case Fault(Disconnected) => Stream([], None)
    case Fault(error) => Stream([], Some(error))
    case Raw(_) => Stream([], None)
  }

  /** A read either consumes a frame or, if it is to be repeated, shortens the script. */
  lemma ReadProgress<M(!new)>(op: Op, codec: Codec<M>, buffer: seq<Byte>, script: seq<ReadEvent>)
    ensures var step := Read(op, codec, buffer, script);
            && |step.buffer| + |Bytes(step.script)| <= |buffer| + |Bytes(script)|
            && (step.delivery.Message? || step.delivery.Raw? ==>
                  |step.buffer| + |Bytes(step.script)| < |buffer| + |Bytes(script)|)
            && ((step.delivery.Absent? && op.TryFrame?) || step.delivery == Fault(TimedOut) ==>
                  Size(step.script) < Size(script))
  {
    ReadConserves(op, codec, buffer, script);
    ReadAccounts(op, codec, buffer, script);
    RetryShortensScript(op, codec, buffer, script);
  }

  lemma {:induction false} RetryShortensScript<M(!new)>(op: Op, codec: Codec<M>, buffer: seq<Byte>, script: seq<ReadEvent>)
    ensures var step := Read(op, codec, buffer, script);
            (step.delivery.Absent? && op.TryFrame?) || step.delivery == Fault(TimedOut) ==>
              Size(step.script) < Size(script)
    decreases Size(script)
  {
    if DecodeBuffered(op, codec, buffer) == Success(None) {
      WaitingBufferIsShort(op, codec, buffer);
      var (r, rest) := NextRead(script, CHUNK);
      match r
      case Got(bytes) =>
        if bytes != [] {
          RetryShortensScript(op, codec, buffer + bytes, rest);
        }
      case Refused(event) =>
        if event.Interrupted? || (event.WouldBlock? && !op.TryFrame? && !event.expired) {
          RetryShortensScript(op, codec, buffer, rest);
        }
    }
  }

  /** What a delivery says about the stream before it, given the stream left after it: the first
      message was taken off, the ending was reported, or nothing changed and a retry is due. */
  ghost predicate Explains<M>(op: Op, delivery: Delivery<M>, before: Stream<M>, after: Stream<M>) {
    match delivery
    case Message(m) => before == Stream([m] + after.messages, after.ending)
    case Absent => if op.TryFrame? then before == after else before == Stream([], None)
    case Fault(TimedOut) => !op.TryFrame? && before == after
    case Fault(Disconnected) => op.TryFrame? && before == Stream([], None)
    case Fault(error) => before == Stream([], Some(error))
    case Raw(_) => false
  }

  lemma DecodedMeetsStream<M(!new)>(op: Op, codec: Codec<M>, buffer: seq<Byte>, tail: seq<Byte>)
    requires !op.RawUntil?
    ensures var decoded := DecodeBuffered(op, codec, buffer);
            var before := ParseStream(codec, buffer + tail);
            && (decoded.Failure? ==> before == Stream([], Some(decoded.error)) && decoded.error.Wire?)
            && (decoded.Success? && decoded.value.Some? ==>
                  && decoded.value.value.1 <= |buffer|
                  && Explains(op, decoded.value.value.0, before,
                              ParseStream(codec, buffer[decoded.value.value.1..] + tail)))
  {
    var parsed := ParseFrame(buffer, codec.maxSize);
    if parsed != Success(None) {
      ParseFrameIsStable(buffer, tail, codec.maxSize);
      if parsed.Success? {
        var n := 4 + |parsed.value.value|;
        assert (buffer + tail)[n..] == buffer[n..] + tail;
      }
    }
  }

  lemma EndMeetsStream<M(!new)>(op: Op, codec: Codec<M>, buffer: seq<Byte>, after: Stream<M>)
    requires !op.RawUntil? && DecodeBuffered(op, codec, buffer) == Success(None)
    ensures Explains(op, AtEof(op, buffer), ParseStream(codec, buffer), after)
  {
    WaitingBufferIsShort(op, codec, buffer);
  }

  /** One call on a working pipe, in terms of the whole stream. */
  lemma {:induction false} ReadMeetsStream<M(!new)>(op: Op, codec: Codec<M>, buffer: seq<Byte>, script: seq<ReadEvent>)
    requires !op.RawUntil? && Clean(script)
    ensures var step := Read(op, codec, buffer, script);
            && Clean(step.script)
            && Explains(op, step.delivery, ParseStream(codec, buffer + Bytes(script)),
                        ParseStream(codec, step.buffer + Bytes(step.script)))
    decreases Size(script)
  {
    var decoded := DecodeBuffered(op, codec, buffer);
    if decoded != Success(None) {
      DecodedMeetsStream(op, codec, buffer, Bytes(script));
    } else {
      NextReadConserves(script, CHUNK);
      var (r, rest) := NextRead(script, CHUNK);
      match r
      case Got(bytes) =>
        if bytes == [] {
          assert buffer + Bytes(script) == buffer;
          EndMeetsStream(op, codec, buffer, ParseStream(codec, buffer + Bytes(rest)));
        } else {
          Regroup(buffer, bytes, Bytes(rest));
          ReadMeetsStream(op, codec, buffer + bytes, rest);
        }
      case Refused(event) =>
        assert event in script;
        assert Bytes(script) == Bytes(rest);
        if event.Interrupted? || (!op.TryFrame? && !event.expired) {
          ReadMeetsStream(op, codec, buffer, rest);
        }
    }
  }

  /** Main theorem of the buffered reader: on every working pipe, under every chunking, timeout and
      interruption, repeated reads return exactly the reference meaning of the byte stream. */
  lemma {:induction false} CollectIsParse<M(!new)>(op: Op, codec: Codec<M>, buffer: seq<Byte>, script: seq<ReadEvent>)
    requires !op.RawUntil? && Clean(script)
    ensures Collect(op, codec, buffer, script) == ParseStream(codec, buffer + Bytes(script))
    decreases |buffer| + |Bytes(script)|, Size(script)
  {
    var step := Read(op, codec, buffer, script);
    ReadMeetsStream(op, codec, buffer, script);
    ReadProgress(op, codec, buffer, script);
    match step.delivery
    case Message(_) => CollectIsParse(op, codec, step.buffer, step.script);
    case Absent => if op.TryFrame? { CollectIsParse(op, codec, step.buffer, step.script); }
    case Fault(TimedOut) => CollectIsParse(op, codec, step.buffer, step.script);
    case Fault(_) =>
    case Raw(_) =>
  }

  // ---------------------------------------------------------------- blocking reads

  /** What `read_exact_count` obtains: the bytes (fewer than asked for only at end of input), or the
      failure of the handle. */
  datatype Exact = Exact(bytes: Option<seq<Byte>>, script: seq<ReadEvent>)

  function ReadExact(script: seq<ReadEvent>, n: nat): (r: Exact)
    ensures Size(r.script) <= Size(script)
    ensures r.bytes.Some? ==> |r.bytes.value| <= n
    ensures r.bytes.Some? && r.bytes.value != [] ==> Size(r.script) < Size(script)
    decreases Size(script), n
  {
    if n == 0 then Exact(Some([]), script)
    else
      var (r, rest) := NextRead(script, n);
      match r
      case Got(bytes) =>
        if bytes == [] then Exact(Some([]), rest)
        else
          var more := ReadExact(rest, n - |bytes|);
          Exact(match more.bytes case None => None case Some(b) => Some(bytes + b), more.script)
      case Refused(Interrupted) => ReadExact(rest, n)
      case Refused(_) => Exact(None, rest)
  }

  /** `whole` is what `done` followed by `left` amounts to. */
  ghost predicate Completes(whole: Exact, done: seq<Byte>, left: Exact) {
    && left.script == whole.script
    && whole.bytes == match left.bytes case None => None case Some(b) => Some(done + b)
  }

  lemma CompletesFromNothing(whole: Exact, done: seq<Byte>)
    requires done == []
    ensures Completes(whole, done, whole)
  {
    if whole.bytes.Some? {
      assert done + whole.bytes.value == whole.bytes.value;
    }
  }

  lemma CompletesWithNothing(whole: Exact, done: seq<Byte>, left: Exact)
    requires Completes(whole, done, left) && left.bytes == Some([])
    ensures whole.bytes == Some(done)
  {
    assert done + [] == done;
  }

  lemma CompletesFurther(whole: Exact, done: seq<Byte>, bytes: seq<Byte>, left: Exact, more: Exact)
    requires Completes(whole, done, left)
    requires left == Exact(match more.bytes case None => None case Some(b) => Some(bytes + b), more.script)
    ensures Completes(whole, done + bytes, more)
  {
    if more.bytes.Some? {
      assert done + (bytes + more.bytes.value) == (done + bytes) + more.bytes.value;
    }
  }

  /** `read_message` never looks at the reader's buffer. */
  function ReadBlocking<M(!new)>(codec: Codec<M>, script: seq<ReadEvent>): (r: (Delivery<M>, seq<ReadEvent>))
    ensures r.0.Message? ==> Size(r.1) < Size(script)
  {
    var header := ReadExact(script, 4);
    if header.bytes.None? then (Fault(Io), header.script)
    else if |header.bytes.value| == 0 then (Absent, header.script)
    else if |header.bytes.value| != 4 then (Fault(TruncatedHeader(|header.bytes.value|)), header.script)
    else
      match ValidateLength(header.bytes.value, codec.maxSize)
      case Failure(error) => (Fault(error), header.script)
      case Success(length) =>
        var payload := ReadExact(header.script, length);
        if payload.bytes.None? then (Fault(Io), payload.script)
        else if |payload.bytes.value| != length then
          (Fault(TruncatedPayload(length, |payload.bytes.value|)), payload.script)
        else
          match codec.decode(payload.bytes.value)
          case None => (Fault(Wire(Malformed)), payload.script)
          case Some(m) => (Message(m), payload.script)
  }

  /** On a working blocking handle `read_exact_count` takes exactly the first `n` bytes of the
      stream, or all of it when there are fewer. */
  lemma {:induction false} ReadExactTakesPrefix(script: seq<ReadEvent>, n: nat)
    requires Clean(script) && Blocking(script)
    ensures var r := ReadExact(script, n);
            && Clean(r.script) && Blocking(r.script)
            && r.bytes.Some?
            && Bytes(script) == r.bytes.value + Bytes(r.script)
            && (|r.bytes.value| == n || (|r.bytes.value| < n && Bytes(r.script) == []))
    decreases Size(script), n
  {
    if n > 0 {
      NextReadConserves(script, n);
      var (r, rest) := NextRead(script, n);
      match r
      case Got(bytes) =>
        if bytes != [] {
          ReadExactTakesPrefix(rest, n - |bytes|);
          var more := ReadExact(rest, n - |bytes|);
          Regroup(bytes, more.bytes.value, Bytes(more.script));
        }
      case Refused(event) =>
        assert event in script;
        ReadExactTakesPrefix(rest, n);
    }
  }

  /** A stream taken apart the way `read_message` takes it: header, payload, rest. */
  lemma StreamByParts<M(!new)>(codec: Codec<M>, header: seq<Byte>, payload: seq<Byte>, rest: seq<Byte>, length: nat)
    requires |header| == 4 && ValidateLength(header, codec.maxSize) == Success(length)
    requires |payload| == length || (|payload| < length && rest == [])
    ensures ParseStream(codec, header + (payload + rest)) ==
      if |payload| < length then Stream([], Some(TruncatedPayload(length, |payload|)))
      else
        match codec.decode(payload)
        case None => Stream([], Some(Wire(Malformed)))
        case Some(m) => Stream([m] + ParseStream(codec, rest).messages, ParseStream(codec, rest).ending)
  {
    var bytes := header + (payload + rest);
    assert bytes[..4] == header;
    if |payload| == length {
      assert bytes[4..4 + length] == payload;
      assert bytes[4 + length..] == rest;
    }
  }

  lemma RefusedHeader<M(!new)>(codec: Codec<M>, header: seq<Byte>, rest: seq<Byte>)
    requires |header| == 4 && ValidateLength(header, codec.maxSize).Failure?
    ensures ParseStream(codec, header + rest) == Stream([], Some(ValidateLength(header, codec.maxSize).error))
  {
    assert (header + rest)[..4] == header;
  }

  lemma BlockingReadMeetsStream<M(!new)>(codec: Codec<M>, script: seq<ReadEvent>)
    requires Clean(script) && Blocking(script)
    ensures var (delivery, rest) := ReadBlocking(codec, script);
            && Clean(rest) && Blocking(rest)
            && (delivery.Message? ==> |Bytes(rest)| < |Bytes(script)|)
            && delivery != Fault(TimedOut) && delivery != Fault(Disconnected)
            && Explains(MessageUntil, delivery, ParseStream(codec, Bytes(script)), ParseStream(codec, Bytes(rest)))
  {
    var header := ReadExact(script, 4);
    ReadExactTakesPrefix(script, 4);
    var first := header.bytes.value;
    if |first| < 4 {
      assert Bytes(script) == first;
    } else if ValidateLength(first, codec.maxSize).Failure? {
      RefusedHeader(codec, first, Bytes(header.script));
    } else {
      var length := ValidateLength(first, codec.maxSize).value;
      ReadExactTakesPrefix(header.script, length);
      var payload := ReadExact(header.script, length);
      StreamByParts(codec, first, payload.bytes.value, Bytes(payload.script), length);
    }
  }

  /** Repeating `read_message` until it reports the end or an error. */
  ghost function CollectBlocking<M(!new)>(codec: Codec<M>, script: seq<ReadEvent>): Stream<M>
    decreases Size(script)
  {
    var (delivery, rest) := ReadBlocking(codec, script);
    match delivery
    case Message(m) =>
      var more := CollectBlocking(codec, rest);
      Stream([m] + more.messages, more.ending)
    case Absent => Stream([], None)
    case Fault(error) => Stream([], Some(error))
    case Raw(_) => Stream([], None)
  }

  /** The blocking reader gives the same stream its reference meaning. */
  lemma {:induction false} CollectBlockingIsParse<M(!new)>(codec: Codec<M>, script: seq<ReadEvent>)
    requires Clean(script) && Blocking(script)
    ensures CollectBlocking(codec, script) == ParseStream(codec, Bytes(script))
    decreases |Bytes(script)|
  {
    BlockingReadMeetsStream(codec, script);
    var (delivery, rest) := ReadBlocking(codec, script);
    if delivery.Message? {
      CollectBlockingIsParse(codec, rest);
    }
  }

  /** The promise of the pipe: what a writer framed is what every kind of reader returns, in order and
      then the end of the stream, however the bytes are cut up and delayed on the way. */
  lemma WrittenMessagesArrive<M(!new)>(codec: Codec<M>, messages: seq<M>, script: seq<ReadEvent>)
    requires codec.Valid() && Clean(script)
    requires forall m :: m in messages ==> codec.Encodable(m)
    requires Bytes(script) == Frames(codec, messages)
    ensures Collect(MessageUntil, codec, [], script) == Stream(messages, None)
    ensures Collect(TryFrame, codec, [], script) == Stream(messages, None)
    ensures Blocking(script) ==> CollectBlocking(codec, script) == Stream(messages, None)
  {
    StreamRoundTrip(codec, messages);
    assert [] + Bytes(script) == Bytes(script);
    CollectIsParse(MessageUntil, codec, [], script);
    CollectIsParse(TryFrame, codec, [], script);
    if Blocking(script) {
      CollectBlockingIsParse(codec, script);
    }
  }
}
