/** From the messages a handler yields to the messages an application receives: whole streaming
    calls, over every re-chunking of the bytes in between. */
module EndToEnd {
  import opened Base
  import opened Http
  import opened Envelopes
  import opened SplitEnvelope
  import opened Pipeline
  import opened Sinks

  // ---- one stream, in general --------------------------------------------

  /** Each of the messages parses back if it can be serialized to no more bytes than the limit. */
  ghost predicate Faithful<M(!new)>(messages: Serialization<M>, ms: seq<M>, limit: nat) {
    forall i :: 0 <= i < |ms| && messages.serialize(ms[i]).Ok? && |messages.serialize(ms[i]).value| <= limit ==>
      messages.parse(messages.serialize(ms[i]).value) == Ok(ms[i])
  }

  /** The serialization that both ends use is one with limits: it is faithful within its limit for reading, if the codec
      is faithful, and parses nothing beyond. */
  lemma LimitedIsFaithful<M(!new)>(codec: Serialization<M>, ms: seq<M>, writeMaxBytes: nat, readMaxBytes: nat)
    requires forall i :: 0 <= i < |ms| && codec.serialize(ms[i]).Ok? ==> codec.parse(codec.serialize(ms[i]).value) == Ok(ms[i])
    ensures Faithful(Limited(codec, writeMaxBytes, readMaxBytes), ms, readMaxBytes)
    ensures forall data :: |data| > readMaxBytes ==>
      Limited(codec, writeMaxBytes, readMaxBytes).parse(data) == Err(Oversize(|data|, readMaxBytes))
    ensures forall data :: |data| <= readMaxBytes ==> Limited(codec, writeMaxBytes, readMaxBytes).parse(data) == codec.parse(data)
  {
  }

  /** It writes what the codec writes, unless that exceeds the limit for writing. */
  lemma LimitedWrites<M(!new)>(codec: Serialization<M>, m: M, writeMaxBytes: nat, readMaxBytes: nat)
    ensures
      var written, r := codec.serialize(m), Limited(codec, writeMaxBytes, readMaxBytes).serialize(m);
      if written.Ok? && |written.value| > writeMaxBytes then r.Err? && r.error.Raised? && r.error.error.code == 8
      else r == written
  {
  }

  /** A compression that is lossless within the limit, and refuses to decompress beyond it. */
  ghost predicate Honest(compression: Option<Compression>, readMaxBytes: nat) {
    compression.Some? ==>
      forall data {:trigger compression.value.compress(data)} ::
        var r := compression.value.decompress(compression.value.compress(data), readMaxBytes);
        if |data| <= readMaxBytes then r == Ok(data) else r.Err?
  }

  /** Everything that both ends of a call agree on, and the limits of either. */
  datatype Call<!M(!new), !E(!new)> = Call(
    messages: Serialization<M>, endFlag: byte, ends: Serialization<E>,
    compression: Option<Compression>, compressMinBytes: nat, readMaxBytes: nat)
  {
    ghost predicate Valid() {
      && IsFlag(endFlag) && endFlag != COMPRESSED_FLAG
      && Honest(compression, readMaxBytes) && readMaxBytes < TWO_32
    }

    /** What the server sends. */
    function Server(outputs: Stream<M>, catchFinally: Finally<Envelope>): Stream<seq<byte>> {
      ServerStream(outputs, messages, catchFinally, compression, compressMinBytes)
    }

    function Parse(): Envelope -> Result<Parsed<M, E>, Thrown>
      requires IsFlag(endFlag)
    {
      Parser(messages, endFlag, ends)
    }

    /** The envelopes in a body, decompressed. */
    function Open(bytes: seq<byte>, end: Ending): Stream<Envelope> {
      MapStream(Decompressor(compression, readMaxBytes), SplitStream(bytes, end, readMaxBytes))
    }

    /** What the client parses from a complete body. */
    function Client(bytes: seq<byte>): Stream<Parsed<M, E>>
      requires IsFlag(endFlag)
    {
      ClientStream(bytes, Done, messages, endFlag, ends, compression, readMaxBytes)
    }

    /** An envelope as it is sent. */
    function Wire(e: Envelope): Envelope {
      match EnvelopeCompress(e, compression, compressMinBytes)
      case Ok(wire) => wire
      case Err(_) => e
    }

    /** The envelopes of a stream: one for each message that can be serialized, and the end. */
    function Sent(outputs: Stream<M>): Stream<Envelope> {
      MapStream(Serializer(messages), outputs)
    }
  }

  /** An envelope that a receiver accepts: neither its bytes on the wire nor its payload exceed the limit. */
  predicate Fits<M(!new), E(!new)>(call: Call<M, E>, e: Envelope) {
    |call.Wire(e).data| <= call.readMaxBytes && |e.data| <= call.readMaxBytes
  }

  predicate Plain(envs: seq<Envelope>) {
    forall i :: 0 <= i < |envs| ==> !HasFlag(envs[i].flags, COMPRESSED_FLAG)
  }

  function WireAll<M(!new), E(!new)>(call: Call<M, E>, envs: seq<Envelope>): (r: seq<Envelope>)
    ensures |r| == |envs| && forall i :: 0 <= i < |r| ==> r[i] == call.Wire(envs[i])
  {
    seq(|envs|, i requires 0 <= i < |envs| => call.Wire(envs[i]))
  }

  /** Envelopes have one encoding, and an encoding has one list of envelopes. */
  lemma EncodeAllInjective(a: seq<Envelope>, b: seq<Envelope>)
    requires EncodeAll(a) == EncodeAll(b)
    requires forall e :: e in a ==> |e.data| < TWO_32
    requires forall e :: e in b ==> |e.data| < TWO_32
    ensures a == b
  {
    SplitWhole(a);
    SplitWhole(b);
  }

  /** Compressing and joining: the bytes are the encodings of the envelopes. */
  lemma SentBytes<M(!new), E(!new)>(call: Call<M, E>, envs: seq<Envelope>, end: Ending)
    requires Plain(envs)
    ensures MapStream(Joiner(), MapStream(Compressor(call.compression, call.compressMinBytes), Stream(envs, end)))
         == Stream(Chunks(WireAll(call, envs)), end)
  {
    MapStreamOk(Compressor(call.compression, call.compressMinBytes), Stream(envs, end), WireAll(call, envs));
    MapStreamOk(Joiner(), Stream(WireAll(call, envs), end), Chunks(WireAll(call, envs)));
  }

  lemma DecompressWire<M(!new), E(!new)>(call: Call<M, E>, e: Envelope)
    requires call.Valid() && !HasFlag(e.flags, COMPRESSED_FLAG) && |call.Wire(e).data| <= call.readMaxBytes
    ensures
      var r := EnvelopeDecompress(call.Wire(e), call.compression, call.readMaxBytes);
      if |e.data| <= call.readMaxBytes then r == Ok(e) else r.Err?
  {
  }

  /** Envelopes that fit come out as they went in, and then the body ends as it does. */
  lemma AllOpened<M(!new), E(!new)>(call: Call<M, E>, envs: seq<Envelope>, end: Ending)
    requires call.Valid() && Plain(envs) && forall i :: 0 <= i < |envs| ==> Fits(call, envs[i])
    ensures call.Open(EncodeAll(WireAll(call, envs)), end) == Stream(envs, end)
  {
    var wire := WireAll(call, envs);
    SplitEncoded(wire, [], call.readMaxBytes);
    assert EncodeAll(wire) + [] == EncodeAll(wire) && wire + [] == wire;
    forall i | 0 <= i < |envs| ensures Decompressor(call.compression, call.readMaxBytes)(wire[i]) == Ok(envs[i]) {
      DecompressWire(call, envs[i]);
    }
    MapStreamOk(Decompressor(call.compression, call.readMaxBytes), Stream(wire, end), envs);
  }

  /** The error for an envelope that does not fit: raised by the splitter, or by the decompression. */
  function MisfitReason<M(!new), E(!new)>(call: Call<M, E>, e: Envelope): Thrown {
    if |call.Wire(e).data| > call.readMaxBytes then Oversize(|call.Wire(e).data|, call.readMaxBytes)
    else
      match EnvelopeDecompress(call.Wire(e), call.compression, call.readMaxBytes)
      case Err(reason) => reason
      case Ok(_) => Undefined
  }

  /** The first envelope that does not fit ends the stream, after all envelopes before it, whatever follows. */
  lemma FirstMisfit<M(!new), E(!new)>(call: Call<M, E>, envs: seq<Envelope>, k: nat, end: Ending)
    requires call.Valid() && Plain(envs) && k < |envs|
    requires (forall i :: 0 <= i < k ==> Fits(call, envs[i])) && !Fits(call, envs[k])
    requires |call.Wire(envs[k]).data| < TWO_32
    ensures call.Open(EncodeAll(WireAll(call, envs)), end) == Stream(envs[..k], Fails(MisfitReason(call, envs[k])))
  {
    var wire := WireAll(call, envs);
    var f := Decompressor(call.compression, call.readMaxBytes);
    forall i | 0 <= i < k ensures f(wire[i]) == Ok(envs[i]) {
      DecompressWire(call, envs[i]);
    }
    if |wire[k].data| > call.readMaxBytes {
      SplitAtMisfit(wire, k, end, call.readMaxBytes);
      MapStreamOk(f, Stream(wire[..k], Fails(Oversize(|wire[k].data|, call.readMaxBytes))), envs[..k]);
    } else {
      DecompressWire(call, envs[k]);
      SplitReaches(wire, k, end, call.readMaxBytes);
      var split := SplitStream(EncodeAll(wire), end, call.readMaxBytes);
      forall i | 0 <= i < k ensures split.items[i] == wire[i] {
        assert wire[..k + 1][i] == wire[i];
      }
      assert split.items[k] == wire[k];
      MapStreamRaises(f, split, envs[..k]);
    }
  }

  lemma SplitAtMisfit(wire: seq<Envelope>, k: nat, end: Ending, readMaxBytes: nat)
    requires k < |wire| && readMaxBytes < |wire[k].data| < TWO_32
    requires forall i :: 0 <= i < k ==> |wire[i].data| <= readMaxBytes && |wire[i].data| < TWO_32
    ensures SplitStream(EncodeAll(wire), end, readMaxBytes)
         == Stream(wire[..k], Fails(Oversize(|wire[k].data|, readMaxBytes)))
  {
    var before := wire[..k];
    assert forall i :: 0 <= i < |before| ==> before[i] == wire[i];
    assert before + [wire[k]] + wire[k + 1..] == wire;
    EncodeAllParts(before, wire[k], wire[k + 1..]);
    SplitStopsAtOversize(before, wire[k], EncodeAll(wire[k + 1..]), end, readMaxBytes);
  }

  lemma SplitReaches(wire: seq<Envelope>, k: nat, end: Ending, readMaxBytes: nat)
    requires k < |wire| && forall i :: 0 <= i <= k ==> |wire[i].data| <= readMaxBytes && |wire[i].data| < TWO_32
    ensures wire[..k + 1] <= SplitStream(EncodeAll(wire), end, readMaxBytes).items
  {
    var reached := wire[..k + 1];
    assert forall i :: 0 <= i < |reached| ==> reached[i] == wire[i];
    EncodeAllAppend(reached, wire[k + 1..]);
    assert reached + wire[k + 1..] == wire;
    SplitStarts(reached, EncodeAll(wire[k + 1..]), readMaxBytes);
  }

  lemma SplitStarts(envs: seq<Envelope>, rest: seq<byte>, readMaxBytes: nat)
    requires forall e :: e in envs ==> |e.data| <= readMaxBytes && |e.data| < TWO_32
    ensures envs <= SplitBytes(EncodeAll(envs) + rest, readMaxBytes).envelopes
  {
    SplitEncoded(envs, rest, readMaxBytes);
  }

  lemma FirstUnfit<M(!new), E(!new)>(call: Call<M, E>, envs: seq<Envelope>) returns (k: nat)
    requires exists i :: 0 <= i < |envs| && !Fits(call, envs[i])
    ensures k < |envs| && !Fits(call, envs[k]) && forall i :: 0 <= i < k ==> Fits(call, envs[i])
  {
    k := 0;
    while Fits(call, envs[k])
      invariant k < |envs| && forall i :: 0 <= i < k ==> Fits(call, envs[i])
      decreases |envs| - k
    {
      k := k + 1;
    }
  }

  /** Splitting and decompressing the server's bytes gives its envelopes exactly when all of them fit. */
  lemma ClientEnvelopes<M(!new), E(!new)>(call: Call<M, E>, envs: seq<Envelope>)
    requires call.Valid() && Plain(envs)
    requires forall i :: 0 <= i < |envs| ==> |call.Wire(envs[i]).data| < TWO_32
    ensures
      var r := call.Open(EncodeAll(WireAll(call, envs)), Done);
      && (r == Stream(envs, Done) <==> forall i :: 0 <= i < |envs| ==> Fits(call, envs[i]))
      && (r.end == Done ==> r == Stream(envs, Done))
  {
    if forall i :: 0 <= i < |envs| ==> Fits(call, envs[i]) {
      AllOpened(call, envs, Done);
    } else {
      var k := FirstUnfit(call, envs);
      FirstMisfit(call, envs, k, Done);
    }
  }

  // ---- the whole call ----------------------------------------------------

  function ParsedAll<M, E>(outputs: seq<M>, end: E): (r: seq<Parsed<M, E>>)
    ensures |r| == |outputs| + 1 && r[|outputs|] == End(end)
    ensures forall i :: 0 <= i < |outputs| ==> r[i] == Message(outputs[i])
  {
    seq(|outputs|, i requires 0 <= i < |outputs| => Message(outputs[i])) + [End(end)]
  }

  lemma ParseMessage<M(!new), E(!new)>(call: Call<M, E>, m: M)
    requires call.Valid() && Serializer(call.messages)(m).Ok? && Faithful(call.messages, [m], call.readMaxBytes)
    ensures |Serializer(call.messages)(m).value.data| <= call.readMaxBytes ==>
      call.Parse()(Serializer(call.messages)(m).value) == Ok(Message(m))
    ensures !HasFlag(Serializer(call.messages)(m).value.flags, COMPRESSED_FLAG)
  {
    assert [m][0] == m;
  }

  /** The envelopes of a call's messages, with their payloads still to be compressed. */
  lemma SentMessages<M(!new), E(!new)>(call: Call<M, E>, outputs: Stream<M>)
    requires call.Valid() && Faithful(call.messages, outputs.items, call.readMaxBytes)
    ensures
      var sent := call.Sent(outputs).items;
      && |sent| <= |outputs.items| && Plain(sent)
      && forall i :: 0 <= i < |sent| && |sent[i].data| <= call.readMaxBytes ==>
           call.Parse()(sent[i]) == Ok(Message(outputs.items[i]))
  {
    var sent := call.Sent(outputs).items;
    MapStreamIsPrefix(Serializer(call.messages), outputs);
    forall i | 0 <= i < |sent|
      ensures |sent[i].data| <= call.readMaxBytes ==> call.Parse()(sent[i]) == Ok(Message(outputs.items[i]))
      ensures !HasFlag(sent[i].flags, COMPRESSED_FLAG)
    {
      ParseMessage(call, outputs.items[i]);
    }
  }

  function MessagesOf<M, E>(outputs: seq<M>): (r: seq<Parsed<M, E>>)
    ensures |r| == |outputs| && forall i :: 0 <= i < |r| ==> r[i] == Message(outputs[i])
  {
    seq(|outputs|, i requires 0 <= i < |outputs| => Message(outputs[i]))
  }

  lemma SentAndEnd<M(!new), E(!new)>(call: Call<M, E>, outputs: Stream<M>, end: Envelope, value: E)
    requires call.Valid() && Faithful(call.messages, outputs.items, call.readMaxBytes)
    requires !HasFlag(end.flags, COMPRESSED_FLAG) && HasFlag(end.flags, call.endFlag) && call.ends.parse(end.data) == Ok(value)
    ensures
      var sent := call.Sent(outputs).items;
      var parsed := ParsedAll(outputs.items[..|sent|], value);
      && Plain(sent + [end])
      && forall i :: 0 <= i < |sent + [end]| && |(sent + [end])[i].data| <= call.readMaxBytes ==>
           call.Parse()((sent + [end])[i]) == Ok(parsed[i])
  {
    SentMessages(call, outputs);
  }

  /** The bytes of a server's stream are those of its envelopes, the messages' and the end. */
  lemma ServerBytes<M(!new), E(!new)>(call: Call<M, E>, outputs: Stream<M>, catchFinally: Finally<Envelope>, end: Envelope)
    requires catchFinally(Caught(call.Sent(outputs).end)) == Ok(Some(end)) && Plain(call.Sent(outputs).items + [end])
    ensures call.Server(outputs, catchFinally).end == Done
    ensures Flatten(call.Server(outputs, catchFinally).items) == EncodeAll(WireAll(call, call.Sent(outputs).items + [end]))
  {
    SentBytes(call, call.Sent(outputs).items + [end], Done);
    FlattenChunks(WireAll(call, call.Sent(outputs).items + [end]));
  }

  /** A callback that appends nothing, or raises an error of its own: the messages are sent all the same, and then the
      stream ends, or fails with that error. */
  lemma ServerWithoutEnd<M(!new), E(!new)>(call: Call<M, E>, outputs: Stream<M>, catchFinally: Finally<Envelope>)
    requires call.Valid() && Faithful(call.messages, outputs.items, call.readMaxBytes)
    requires
      var r := catchFinally(Caught(call.Sent(outputs).end));
      r.Err? || r == Ok(None)
    ensures
      var r := catchFinally(Caught(call.Sent(outputs).end));
      var sent := call.Server(outputs, catchFinally);
      && Flatten(sent.items) == EncodeAll(WireAll(call, call.Sent(outputs).items))
      && sent.end == if r.Err? then Fails(r.error) else Done
  {
    var r := catchFinally(Caught(call.Sent(outputs).end));
    SentMessages(call, outputs);
    SentBytes(call, call.Sent(outputs).items, if r.Err? then Fails(r.error) else Done);
    FlattenChunks(WireAll(call, call.Sent(outputs).items));
  }

  lemma ClientMisfit<M(!new), E(!new)>(call: Call<M, E>, envs: seq<Envelope>, parsed: seq<Parsed<M, E>>, k: nat)
    requires call.Valid() && Plain(envs) && k < |envs| && k <= |parsed|
    requires (forall i :: 0 <= i < k ==> Fits(call, envs[i])) && !Fits(call, envs[k])
    requires |call.Wire(envs[k]).data| < TWO_32
    requires forall i :: 0 <= i < k ==> call.Parse()(envs[i]) == Ok(parsed[i])
    ensures call.Client(EncodeAll(WireAll(call, envs))) == Stream(parsed[..k], Fails(MisfitReason(call, envs[k])))
  {
    FirstMisfit(call, envs, k, Done);
    MapStreamOk(call.Parse(), Stream(envs[..k], Fails(MisfitReason(call, envs[k]))), parsed[..k]);
  }

  lemma ClientParses<M(!new), E(!new)>(call: Call<M, E>, envs: seq<Envelope>, parsed: seq<Parsed<M, E>>)
    requires call.Valid() && Plain(envs) && |parsed| == |envs|
    requires forall i :: 0 <= i < |envs| ==> |call.Wire(envs[i]).data| < TWO_32
    requires forall i :: 0 <= i < |envs| && |envs[i].data| <= call.readMaxBytes ==> call.Parse()(envs[i]) == Ok(parsed[i])
    ensures
      call.Client(EncodeAll(WireAll(call, envs))) == Stream(parsed, Done)
      <==> forall i :: 0 <= i < |envs| ==> Fits(call, envs[i])
  {
    if forall i :: 0 <= i < |envs| ==> Fits(call, envs[i]) {
      AllOpened(call, envs, Done);
      MapStreamOk(call.Parse(), Stream(envs, Done), parsed);
    } else {
      var k := FirstUnfit(call, envs);
      ClientMisfit(call, envs, parsed, k);
    }
  }

  /** For every list of outputs, every ending, every compression and threshold, and every re-chunking of the
      bytes: the client parses exactly the messages that could be serialized, in order, and then the end that
      the server's catchFinally produced, if and only if every payload is within readMaxBytes. */
  lemma Delivery<M(!new), E(!new)>(call: Call<M, E>, outputs: Stream<M>, catchFinally: Finally<Envelope>,
                                   end: Envelope, value: E, chunks: seq<seq<byte>>)
    requires call.Valid() && Faithful(call.messages, outputs.items, call.readMaxBytes)
    requires catchFinally(Caught(call.Sent(outputs).end)) == Ok(Some(end))
    requires !HasFlag(end.flags, COMPRESSED_FLAG) && HasFlag(end.flags, call.endFlag) && call.ends.parse(end.data) == Ok(value)
    requires forall e :: e in call.Sent(outputs).items + [end] ==> |call.Wire(e).data| < TWO_32
    requires Flatten(chunks) == Flatten(call.Server(outputs, catchFinally).items)
    ensures call.Server(outputs, catchFinally).end == Done
    ensures
      var sent := call.Sent(outputs).items;
      call.Client(Flatten(chunks)) == Stream(ParsedAll(outputs.items[..|sent|], value), Done)
      <==> forall e :: e in sent + [end] ==> Fits(call, e)
  {
    var sent := call.Sent(outputs).items;
    var envs := sent + [end];
    SentAndEnd(call, outputs, end, value);
    ServerBytes(call, outputs, catchFinally, end);
    assert forall i :: 0 <= i < |envs| ==> envs[i] in envs;
    ClientParses(call, envs, ParsedAll(outputs.items[..|sent|], value));
    assert (forall e :: e in envs ==> Fits(call, e)) <==> (forall i :: 0 <= i < |envs| ==> Fits(call, envs[i]));
  }

  /** If the end of the stream does not parse, the client still gets every message, and then the parser's error. */
  lemma DeliveryWithBadEnd<M(!new), E(!new)>(call: Call<M, E>, outputs: Stream<M>, catchFinally: Finally<Envelope>,
                                             end: Envelope, reason: Thrown, chunks: seq<seq<byte>>)
    requires call.Valid() && Faithful(call.messages, outputs.items, call.readMaxBytes)
    requires catchFinally(Caught(call.Sent(outputs).end)) == Ok(Some(end))
    requires !HasFlag(end.flags, COMPRESSED_FLAG) && HasFlag(end.flags, call.endFlag) && call.ends.parse(end.data) == Err(reason)
    requires forall e :: e in call.Sent(outputs).items + [end] ==> Fits(call, e)
    requires Flatten(chunks) == Flatten(call.Server(outputs, catchFinally).items)
    ensures
      var messages: seq<Parsed<M, E>> := MessagesOf(outputs.items[..|call.Sent(outputs).items|]);
      call.Client(Flatten(chunks)) == Stream(messages, Fails(reason))
  {
    var sent := call.Sent(outputs).items;
    var envs := sent + [end];
    SentThenBadEnd(call, outputs, end, reason);
    assert forall i :: 0 <= i < |envs| ==> envs[i] in envs;
    ServerBytes(call, outputs, catchFinally, end);
    ClientRaises(call, envs, MessagesOf(outputs.items[..|sent|]), reason);
  }

  lemma SentThenBadEnd<M(!new), E(!new)>(call: Call<M, E>, outputs: Stream<M>, end: Envelope, reason: Thrown)
    requires call.Valid() && Faithful(call.messages, outputs.items, call.readMaxBytes)
    requires !HasFlag(end.flags, COMPRESSED_FLAG) && HasFlag(end.flags, call.endFlag) && call.ends.parse(end.data) == Err(reason)
    ensures
      var sent := call.Sent(outputs).items;
      && Plain(sent + [end])
      && call.Parse()((sent + [end])[|sent|]) == Err(reason)
      && forall i :: 0 <= i < |sent| && |sent[i].data| <= call.readMaxBytes ==>
           call.Parse()((sent + [end])[i]) == Ok(Message(outputs.items[i]))
  {
    SentMessages(call, outputs);
  }

  lemma ClientRaises<M(!new), E(!new)>(call: Call<M, E>, envs: seq<Envelope>, messages: seq<Parsed<M, E>>, reason: Thrown)
    requires call.Valid() && Plain(envs) && |envs| == |messages| + 1
    requires forall e :: e in envs ==> Fits(call, e)
    requires forall i :: 0 <= i < |messages| ==> call.Parse()(envs[i]) == Ok(messages[i])
    requires call.Parse()(envs[|messages|]) == Err(reason)
    ensures call.Client(EncodeAll(WireAll(call, envs))) == Stream(messages, Fails(reason))
  {
    assert forall i :: 0 <= i < |envs| ==> envs[i] in envs;
    ClientEnvelopes(call, envs);
    MapStreamRaises(call.Parse(), Stream(envs, Done), messages);
  }

  lemma ConsumeMessages<M, E>(outputs: seq<M>, reason: Thrown, rules: EndRules<E>)
    ensures Consume(Stream(MessagesOf<M, E>(outputs), Fails(reason)), rules) == Received(outputs, map[], Fails(reason))
  {
  }

  lemma ClientBeforeMisfit<M(!new), E(!new)>(call: Call<M, E>, envs: seq<Envelope>, messages: seq<M>)
    requires call.Valid() && Plain(envs) && |messages| < |envs|
    requires (forall i :: 0 <= i < |messages| ==> Fits(call, envs[i])) && !Fits(call, envs[|messages|])
    requires |call.Wire(envs[|messages|]).data| < TWO_32
    requires forall i :: 0 <= i < |messages| ==> call.Parse()(envs[i]) == Ok(Message(messages[i]))
    ensures
      var misfit := envs[|messages|];
      && call.Client(EncodeAll(WireAll(call, envs))) == Stream(MessagesOf<M, E>(messages), Fails(MisfitReason(call, misfit)))
      && (|call.Wire(misfit).data| <= call.readMaxBytes ==>
            EnvelopeDecompress(call.Wire(misfit), call.compression, call.readMaxBytes) == Err(MisfitReason(call, misfit)))
  {
    var parsed: seq<Parsed<M, E>> := MessagesOf(messages);
    assert parsed[..|messages|] == parsed;
    ClientMisfit(call, envs, parsed, |messages|);
    if |call.Wire(envs[|messages|]).data| <= call.readMaxBytes {
      DecompressWire(call, envs[|messages|]);
    }
  }

  /** What an oversize message does, end to end: every message before the first envelope that does not fit arrives,
      and then the error, be it raised for the bytes on the wire or by the decompression. */
  lemma OversizeIsRefused<M(!new), E(!new)>(call: Call<M, E>, outputs: Stream<M>, catchFinally: Finally<Envelope>,
                                            end: Envelope, rules: EndRules<E>, k: nat, chunks: seq<seq<byte>>)
    requires call.Valid() && Faithful(call.messages, outputs.items, call.readMaxBytes)
    requires catchFinally(Caught(call.Sent(outputs).end)) == Ok(Some(end)) && !HasFlag(end.flags, COMPRESSED_FLAG)
    requires
      var envs := call.Sent(outputs).items + [end];
      && k < |envs| && !Fits(call, envs[k]) && |call.Wire(envs[k]).data| < TWO_32
      && forall i :: 0 <= i < k ==> Fits(call, envs[i])
    requires Flatten(chunks) == Flatten(call.Server(outputs, catchFinally).items)
    ensures
      var misfit := (call.Sent(outputs).items + [end])[k];
      && k <= |outputs.items|
      && Consume(call.Client(Flatten(chunks)), rules)
           == Received(outputs.items[..k], map[], Fails(MisfitReason(call, misfit)))
      && (|call.Wire(misfit).data| <= call.readMaxBytes ==>
            EnvelopeDecompress(call.Wire(misfit), call.compression, call.readMaxBytes) == Err(MisfitReason(call, misfit)))
  {
    var sent := call.Sent(outputs).items;
    var envs := sent + [end];
    SentMessages(call, outputs);
    ServerBytes(call, outputs, catchFinally, end);
    ClientBeforeMisfit(call, envs, outputs.items[..k]);
    ConsumeMessages<M, E>(outputs.items[..k], MisfitReason(call, envs[k]), rules);
  }

  // ---- a body that is cut short ------------------------------------------

  lemma SplitWhole(envs: seq<Envelope>)
    requires forall e :: e in envs ==> |e.data| < TWO_32
    ensures SplitBytes(EncodeAll(envs), TWO_32).envelopes == envs
  {
    SplitEncoded(envs, [], TWO_32);
    assert EncodeAll(envs) + [] == EncodeAll(envs) && envs + [] == envs;
  }

  lemma PrefixOfEncoding(a: seq<Envelope>, rest: seq<byte>, b: seq<Envelope>)
    requires EncodeAll(a) + rest == EncodeAll(b)
    requires forall e :: e in a ==> |e.data| < TWO_32
    requires forall e :: e in b ==> |e.data| < TWO_32
    ensures a <= b && (|a| == |b| ==> rest == [])
  {
    SplitStarts(a, rest, TWO_32);
    SplitWhole(b);
    if |a| == |b| {
      assert a == b;
      assert |EncodeAll(a) + rest| == |EncodeAll(a)|;
    }
  }

  /** The envelopes found in the first bytes of a stream are its first envelopes, and not all if that ends cleanly. */
  lemma CutSplit(envs: seq<Envelope>, k: nat, readMaxBytes: nat)
    requires k < |EncodeAll(envs)| && forall e :: e in envs ==> |e.data| < TWO_32
    ensures
      var s := SplitStream(EncodeAll(envs)[..k], Done, readMaxBytes);
      && s.items <= envs && (forall e :: e in s.items ==> |e.data| <= readMaxBytes)
      && (s.end.Done? ==> |s.items| < |envs|)
  {
    var bytes := EncodeAll(envs);
    var s := SplitBytes(bytes[..k], readMaxBytes);
    SplitConserves(bytes[..k], readMaxBytes);
    assert bytes == bytes[..k] + bytes[k..];
    ConcatAssociates(EncodeAll(s.envelopes), s.rest, bytes[k..]);
    PrefixOfEncoding(s.envelopes, s.rest + bytes[k..], envs);
  }

  lemma CutDecompressed<M(!new), E(!new)>(call: Call<M, E>, envs: seq<Envelope>, k: nat)
    requires call.Valid() && Plain(envs) && k < |EncodeAll(WireAll(call, envs))|
    requires forall i :: 0 <= i < |envs| ==> |call.Wire(envs[i]).data| < TWO_32
    ensures
      var r := call.Open(EncodeAll(WireAll(call, envs))[..k], Done);
      && r.items <= envs && (r.end.Done? ==> |r.items| < |envs|)
      && forall i :: 0 <= i < |r.items| ==> |r.items[i].data| <= call.readMaxBytes
  {
    var wire := WireAll(call, envs);
    var split := SplitStream(EncodeAll(wire)[..k], Done, call.readMaxBytes);
    var f := Decompressor(call.compression, call.readMaxBytes);
    CutSplit(wire, k, call.readMaxBytes);
    MapStreamIsPrefix(f, split);
    forall i | 0 <= i < |MapStream(f, split).items|
      ensures MapStream(f, split).items[i] == envs[i] && |envs[i].data| <= call.readMaxBytes
    {
      assert split.items[i] in split.items && split.items[i] == wire[i];
      DecompressWire(call, envs[i]);
    }
  }

  lemma SentAndEndFlags<M(!new), E(!new)>(call: Call<M, E>, outputs: Stream<M>, end: Envelope)
    requires call.Valid() && Faithful(call.messages, outputs.items, call.readMaxBytes)
    requires !HasFlag(end.flags, COMPRESSED_FLAG) && HasFlag(end.flags, call.endFlag)
    ensures
      var sent := call.Sent(outputs).items;
      && |sent| <= |outputs.items| && Plain(sent + [end])
      && (forall i :: 0 <= i < |sent| && |sent[i].data| <= call.readMaxBytes ==>
            call.Parse()((sent + [end])[i]) == Ok(Message(outputs.items[i])))
      && (call.Parse()((sent + [end])[|sent|]).Ok? ==> call.Parse()((sent + [end])[|sent|]).value.End?)
  {
    SentMessages(call, outputs);
  }

  /** Parsing some of the first envelopes of a stream, whose last one is the end. */
  lemma ParseFirst<M(!new), E(!new)>(call: Call<M, E>, envs: seq<Envelope>, messages: seq<M>, r: Stream<Envelope>)
    requires call.Valid() && |envs| == |messages| + 1 && r.items <= envs && (r.end.Done? ==> |r.items| < |envs|)
    requires forall i :: 0 <= i < |r.items| ==> |r.items[i].data| <= call.readMaxBytes
    requires forall i :: 0 <= i < |messages| && |envs[i].data| <= call.readMaxBytes ==>
      call.Parse()(envs[i]) == Ok(Message(messages[i]))
    requires call.Parse()(envs[|messages|]).Ok? ==> call.Parse()(envs[|messages|]).value.End?
    ensures
      var p := MapStream(call.Parse(), r);
      && |p.items| <= |messages| + 1
      && (forall i :: 0 <= i < |p.items| && i < |messages| ==> p.items[i] == Message(messages[i]))
      && (|p.items| == |messages| + 1 ==> p.items[|messages|].End?)
      && (p.end.Done? ==> |p.items| <= |messages|)
  {
    MapStreamIsPrefix(call.Parse(), r);
  }

  lemma CutParsed<M(!new), E(!new)>(call: Call<M, E>, outputs: Stream<M>, end: Envelope, k: nat)
    requires call.Valid() && Faithful(call.messages, outputs.items, call.readMaxBytes)
    requires !HasFlag(end.flags, COMPRESSED_FLAG) && HasFlag(end.flags, call.endFlag)
    requires forall e :: e in call.Sent(outputs).items + [end] ==> |call.Wire(e).data| < TWO_32
    requires k < |EncodeAll(WireAll(call, call.Sent(outputs).items + [end]))|
    ensures
      var sent := call.Sent(outputs).items;
      var p := call.Client(EncodeAll(WireAll(call, sent + [end]))[..k]);
      && |sent| <= |outputs.items| && |p.items| <= |sent| + 1
      && (forall i :: 0 <= i < |p.items| && i < |sent| ==> p.items[i] == Message(outputs.items[i]))
      && (|p.items| == |sent| + 1 ==> p.items[|sent|].End?)
      && (p.end.Done? ==> |p.items| <= |sent|)
  {
    var sent := call.Sent(outputs).items;
    var envs := sent + [end];
    SentAndEndFlags(call, outputs, end);
    assert forall i :: 0 <= i < |envs| ==> envs[i] in envs;
    CutDecompressed(call, envs, k);
    ParseFirst(call, envs, outputs.items[..|sent|], call.Open(EncodeAll(WireAll(call, envs))[..k], Done));
  }

  lemma ConsumeCut<M, E>(p: Stream<Parsed<M, E>>, outputs: seq<M>, rules: EndRules<E>)
    requires |p.items| <= |outputs| + 1 && (p.end.Done? ==> |p.items| <= |outputs|)
    requires forall i :: 0 <= i < |p.items| && i < |outputs| ==> p.items[i] == Message(outputs[i])
    requires |p.items| == |outputs| + 1 ==> p.items[|outputs|].End?
    ensures Consume(p, rules).messages <= outputs && !Consume(p, rules).end.Done?
  {
    SinkAccepts(p, rules);
    var n := Leading(p.items);
    assert n <= |outputs|;
  }

  /** Truncation is noticed: if any of the last bytes of a server's stream are missing, and the body ends cleanly
      nevertheless, the client never finishes normally, and what it yields is a prefix of the handler's messages. */
  lemma TruncationIsNoticed<M(!new), E(!new)>(call: Call<M, E>, outputs: Stream<M>, catchFinally: Finally<Envelope>,
                                              end: Envelope, rules: EndRules<E>, k: nat)
    requires call.Valid() && Faithful(call.messages, outputs.items, call.readMaxBytes)
    requires catchFinally(Caught(call.Sent(outputs).end)) == Ok(Some(end))
    requires !HasFlag(end.flags, COMPRESSED_FLAG) && HasFlag(end.flags, call.endFlag)
    requires forall e :: e in call.Sent(outputs).items + [end] ==> |call.Wire(e).data| < TWO_32
    requires k < |Flatten(call.Server(outputs, catchFinally).items)|
    ensures
      var r := Consume(call.Client(Flatten(call.Server(outputs, catchFinally).items)[..k]), rules);
      && !r.end.Done?
      && |call.Sent(outputs).items| <= |outputs.items|
      && r.messages <= outputs.items[..|call.Sent(outputs).items|]
  {
    var sent := call.Sent(outputs).items;
    SentAndEndFlags(call, outputs, end);
    ServerBytes(call, outputs, catchFinally, end);
    CutParsed(call, outputs, end, k);
    ConsumeCut(call.Client(EncodeAll(WireAll(call, sent + [end]))[..k]), outputs.items[..|sent|], rules);
  }
}
