/** The transformations of asynchronous iterables that make up both ends of a streaming call. */
module Pipeline {
  import opened Base
  import opened Http
  import opened Envelopes
  import opened SplitEnvelope

  /** Either side of a codec may raise an error. */
  datatype Serialization<!T> = Serialization(serialize: T -> Result<seq<byte>, Thrown>, parse: seq<byte> -> Result<T, Thrown>)

  /** A parsed envelope: a message, or the end of the stream. */
  datatype Parsed<+M, +E> = Message(message: M) | End(end: E)

  // ---- one element at a time ---------------------------------------------

  /** Applies `f` to every element until it raises an error. */
  function MapStream<T, U>(f: T -> Result<U, Thrown>, s: Stream<T>): (r: Stream<U>)
    ensures |r.items| <= |s.items|
    decreases |s.items|
  {
    if s.items == [] then Stream([], s.end)
    else match f(s.items[0])
      case Ok(u) =>
        var r := MapStream(f, Stream(s.items[1..], s.end));
        Stream([u] + r.items, r.end)
      case Err(reason) => Stream([], Fails(reason))
  }

  /** The loop `for await (const x of iterable) { yield f(x) }`. */
  method TransformEach<T, U>(f: T -> Result<U, Thrown>, source: Stream<T>) returns (out: Stream<U>)
    ensures out == MapStream(f, source)
  {
    var items: seq<U> := [];
    for i := 0 to |source.items|
      invariant MapStream(f, source) == Then(items, MapStream(f, Stream(source.items[i..], source.end)))
    {
      ghost var rest := Stream(source.items[i..], source.end);
      assert rest.items[0] == source.items[i] && rest.items[1..] == source.items[i + 1..];
      var u := f(source.items[i]);
      if u.Err? {
        assert Then(items, Stream([], Fails(u.error))) == Stream(items, Fails(u.error));
        return Stream(items, Fails(u.error));
      }
      ConcatAssociates(items, [u.value], MapStream(f, Stream(source.items[i + 1..], source.end)).items);
      items := items + [u.value];
    }
    assert MapStream(f, Stream(source.items[|source.items|..], source.end)) == Stream([], source.end);
    return Stream(items, source.end);
  }

  function Then<U>(items: seq<U>, s: Stream<U>): Stream<U> {
    Stream(items + s.items, s.end)
  }

  lemma {:induction false} MapStreamOk<T, U>(f: T -> Result<U, Thrown>, s: Stream<T>, us: seq<U>)
    requires |us| == |s.items| && forall i :: 0 <= i < |us| ==> f(s.items[i]) == Ok(us[i])
    ensures MapStream(f, s) == Stream(us, s.end)
    decreases |us|
  {
    if us != [] {
      var rest := Stream(s.items[1..], s.end);
      MapStreamOk(f, rest, us[1..]);
    }
  }

  lemma {:induction false} MapStreamRaises<T, U>(f: T -> Result<U, Thrown>, s: Stream<T>, us: seq<U>)
    requires |us| < |s.items| && f(s.items[|us|]).Err?
    requires forall i :: 0 <= i < |us| ==> f(s.items[i]) == Ok(us[i])
    ensures MapStream(f, s) == Stream(us, Fails(f(s.items[|us|]).error))
    decreases |us|
  {
    if us != [] {
      var rest := Stream(s.items[1..], s.end);
      MapStreamRaises(f, rest, us[1..]);
    }
  }

  /** The elements that come out are the images of the first ones that went in; an error is the first one
      raised, or the one the source ended with. */
  lemma {:induction false} MapStreamIsPrefix<T, U>(f: T -> Result<U, Thrown>, s: Stream<T>)
    ensures
      var r := MapStream(f, s);
      && (forall i :: 0 <= i < |r.items| ==> f(s.items[i]) == Ok(r.items[i]))
      && (|r.items| < |s.items| ==> f(s.items[|r.items|]).Err? && r.end == Fails(f(s.items[|r.items|]).error))
      && (|r.items| == |s.items| ==> r.end == s.end)
    decreases |s.items|
  {
    if s.items != [] && f(s.items[0]).Ok? {
      var rest := Stream(s.items[1..], s.end);
      MapStreamIsPrefix(f, rest);
      assert forall i :: 0 < i < |MapStream(f, s).items| ==>
        MapStream(f, s).items[i] == MapStream(f, rest).items[i - 1] && s.items[i] == rest.items[i - 1];
    }
  }

  // ---- the end of a stream -----------------------------------------------

  /** The variable `err` of transformCatchFinally: what was caught, or undefined. */
  function Caught(end: Ending): Thrown {
    if end.Fails? then end.reason else Undefined
  }

  /** A callback may append an element, or return undefined (None), or raise an error. */
  type Finally<!T> = Thrown -> Result<Option<T>, Thrown>

  /** Passes elements on, and lets `catchFinally` append an element once the source has ended or failed. */
  function CatchFinally<T>(s: Stream<T>, catchFinally: Finally<T>): Stream<T> {
    match catchFinally(Caught(s.end))
    case Ok(None) => Stream(s.items, Done)
    case Ok(Some(last)) => Stream(s.items + [last], Done)
    case Err(reason) => Stream(s.items, Fails(reason))
  }

  method TransformCatchFinally<T>(source: Stream<T>, catchFinally: Finally<T>) returns (out: Stream<T>)
    ensures out == CatchFinally(source, catchFinally)
  {
    var items: seq<T> := [];
    var i := 0;
    var err := Undefined;
    while true
      invariant 0 <= i <= |source.items| && items == source.items[..i] && err == Undefined
      decreases |source.items| - i
    {
      if i == |source.items| {
        if source.end.Fails? {
          err := source.end.reason;
        }
        break;
      }
      items := items + [source.items[i]];
      i := i + 1;
    }
    var caught := catchFinally(err);
    if caught.Err? {
      return Stream(items, Fails(caught.error));
    }
    if caught.value.Some? {
      items := items + [caught.value.value];
    }
    return Stream(items, Done);
  }

  // ---- the stages --------------------------------------------------------

  function Serializer<M(!new)>(messages: Serialization<M>): M -> Result<Envelope, Thrown> {
    m =>
      match messages.serialize(m)
      case Ok(data) => Ok(Envelope(0, data))
      case Err(reason) => Err(reason)
  }

  function Compressor(compression: Option<Compression>, compressMinBytes: nat): Envelope -> Result<Envelope, Thrown> {
    e => EnvelopeCompress(e, compression, compressMinBytes)
  }

  function Joiner(): Envelope -> Result<seq<byte>, Thrown> {
    e => Ok(Encode(e))
  }

  function Decompressor(compression: Option<Compression>, readMaxBytes: nat): Envelope -> Result<Envelope, Thrown> {
    e => EnvelopeDecompress(e, compression, readMaxBytes)
  }

  function Parser<M(!new), E(!new)>(messages: Serialization<M>, endFlag: byte, ends: Serialization<E>)
    : Envelope -> Result<Parsed<M, E>, Thrown>
    requires IsFlag(endFlag)
  {
    (e: Envelope) =>
      if HasFlag(e.flags, endFlag) then
        (match ends.parse(e.data) case Ok(end) => Ok(End(end)) case Err(reason) => Err(reason))
      else
        (match messages.parse(e.data) case Ok(message) => Ok(Message(message)) case Err(reason) => Err(reason))
  }

  /** What a server sends: messages, then whatever `catchFinally` makes of the ending, compressed and joined. */
  function ServerStream<M(!new)>(outputs: Stream<M>, messages: Serialization<M>, catchFinally: Finally<Envelope>,
                                 compression: Option<Compression>, compressMinBytes: nat): Stream<seq<byte>>
  {
    MapStream(Joiner(),
      MapStream(Compressor(compression, compressMinBytes),
        CatchFinally(MapStream(Serializer(messages), outputs), catchFinally)))
  }

  method ServerPipeline<M(!new)>(outputs: Stream<M>, messages: Serialization<M>, catchFinally: Finally<Envelope>,
                                 compression: Option<Compression>, compressMinBytes: nat) returns (out: Stream<seq<byte>>)
    ensures out == ServerStream(outputs, messages, catchFinally, compression, compressMinBytes)
  {
    var serialized := TransformEach(Serializer(messages), outputs);
    var ended := TransformCatchFinally(serialized, catchFinally);
    var compressed := TransformEach(Compressor(compression, compressMinBytes), ended);
    out := TransformEach(Joiner(), compressed);
  }

  /** What a client parses from the bytes of a response, before it looks at the order of messages and end. */
  function ClientStream<M(!new), E(!new)>(bytes: seq<byte>, end: Ending, messages: Serialization<M>, endFlag: byte, ends: Serialization<E>,
                                          compression: Option<Compression>, readMaxBytes: nat): Stream<Parsed<M, E>>
    requires IsFlag(endFlag)
  {
    MapStream(Parser(messages, endFlag, ends),
      MapStream(Decompressor(compression, readMaxBytes), SplitStream(bytes, end, readMaxBytes)))
  }

  method ClientPipeline<M(!new), E(!new)>(body: Stream<seq<byte>>, messages: Serialization<M>, endFlag: byte, ends: Serialization<E>,
                                          compression: Option<Compression>, readMaxBytes: nat) returns (out: Stream<Parsed<M, E>>)
    requires IsFlag(endFlag)
    ensures out == ClientStream(Flatten(body.items), body.end, messages, endFlag, ends, compression, readMaxBytes)
  {
    var split := TransformSplitEnvelope(body, readMaxBytes);
    var decompressed := TransformEach(Decompressor(compression, readMaxBytes), split);
    out := TransformEach(Parser(messages, endFlag, ends), decompressed);
  }

  // ---- the request -------------------------------------------------------

  /** Parsing without a serialization for ends: envelopes with the end flag, if there is one, are skipped or refused. */
  function ParsePlain<M(!new)>(messages: Serialization<M>, endFlag: Option<byte>, refuse: bool, s: Stream<Envelope>): Stream<M>
    requires endFlag.Some? ==> IsFlag(endFlag.value)
    decreases |s.items|
  {
    if s.items == [] then Stream([], s.end)
    else
      var e, rest := s.items[0], Stream(s.items[1..], s.end);
      if endFlag.Some? && HasFlag(e.flags, endFlag.value) then
        if refuse then Stream([], Fails(Failure(INVALID_ARGUMENT, "unexpected end flag")))
        else ParsePlain(messages, endFlag, refuse, rest)
      else
        match messages.parse(e.data)
        case Ok(message) => Then([message], ParsePlain(messages, endFlag, refuse, rest))
        case Err(reason) => Stream([], Fails(reason))
  }

  method TransformParsePlain<M(!new)>(messages: Serialization<M>, endFlag: Option<byte>, refuse: bool, source: Stream<Envelope>)
    returns (out: Stream<M>)
    requires endFlag.Some? ==> IsFlag(endFlag.value)
    ensures out == ParsePlain(messages, endFlag, refuse, source)
  {
    var items: seq<M> := [];
    for i := 0 to |source.items|
      invariant ParsePlain(messages, endFlag, refuse, source)
             == Then(items, ParsePlain(messages, endFlag, refuse, Stream(source.items[i..], source.end)))
    {
      var e := source.items[i];
      ghost var rest := Stream(source.items[i + 1..], source.end);
      assert source.items[i..][0] == e && source.items[i..][1..] == source.items[i + 1..];
      if endFlag.Some? && HasFlag(e.flags, endFlag.value) {
        if refuse {
          assert items + [] == items;
          return Stream(items, Fails(Failure(INVALID_ARGUMENT, "unexpected end flag")));
        }
        continue;
      }
      var message := messages.parse(e.data);
      if message.Err? {
        assert items + [] == items;
        return Stream(items, Fails(message.error));
      }
      ConcatAssociates(items, [message.value], ParsePlain(messages, endFlag, refuse, rest).items);
      items := items + [message.value];
    }
    assert source.items[|source.items|..] == [] && items + [] == items;
    return Stream(items, source.end);
  }

  /** What a client sends: messages, compressed and joined; no end. */
  function RequestStream<M(!new)>(inputs: Stream<M>, messages: Serialization<M>,
                                  compression: Option<Compression>, compressMinBytes: nat): Stream<seq<byte>>
  {
    MapStream(Joiner(), MapStream(Compressor(compression, compressMinBytes), MapStream(Serializer(messages), inputs)))
  }

  method RequestPipeline<M(!new)>(inputs: Stream<M>, messages: Serialization<M>,
                                  compression: Option<Compression>, compressMinBytes: nat) returns (out: Stream<seq<byte>>)
    ensures out == RequestStream(inputs, messages, compression, compressMinBytes)
  {
    var serialized := TransformEach(Serializer(messages), inputs);
    var compressed := TransformEach(Compressor(compression, compressMinBytes), serialized);
    out := TransformEach(Joiner(), compressed);
  }

  /** What a handler parses from the bytes of a request. */
  function HandlerStream<M(!new)>(bytes: seq<byte>, end: Ending, messages: Serialization<M>, endFlag: Option<byte>, refuse: bool,
                                  compression: Option<Compression>, readMaxBytes: nat): Stream<M>
    requires endFlag.Some? ==> IsFlag(endFlag.value)
  {
    ParsePlain(messages, endFlag, refuse,
      MapStream(Decompressor(compression, readMaxBytes), SplitStream(bytes, end, readMaxBytes)))
  }

  method HandlerPipeline<M(!new)>(body: Stream<seq<byte>>, messages: Serialization<M>, endFlag: Option<byte>, refuse: bool,
                                  compression: Option<Compression>, readMaxBytes: nat) returns (out: Stream<M>)
    requires endFlag.Some? ==> IsFlag(endFlag.value)
    ensures out == HandlerStream(Flatten(body.items), body.end, messages, endFlag, refuse, compression, readMaxBytes)
  {
    var split := TransformSplitEnvelope(body, readMaxBytes);
    var decompressed := TransformEach(Decompressor(compression, readMaxBytes), split);
    out := TransformParsePlain(messages, endFlag, refuse, decompressed);
  }

  // ---- limits ------------------------------------------------------------

  /** limitSerialization: a serialization that neither writes nor reads more than the limits allow. */
  function Limited<M(!new)>(messages: Serialization<M>, writeMaxBytes: nat, readMaxBytes: nat): Serialization<M> {
    Serialization(
      (m: M) =>
        (match messages.serialize(m)
         case Ok(data) => if |data| > writeMaxBytes then Err(TooMuchWritten(|data|, writeMaxBytes)) else Ok(data)
         case Err(reason) => Err(reason)),
      (data: seq<byte>) =>
        if |data| > readMaxBytes then Err(Oversize(|data|, readMaxBytes)) else messages.parse(data))
  }

  function TooMuchWritten(length: nat, writeMaxBytes: nat): Thrown {
    Failure(RESOURCE_EXHAUSTED, "message size " + Js.NatToString(length)
      + " is larger than configured writeMaxBytes " + Js.NatToString(writeMaxBytes))
  }
}
