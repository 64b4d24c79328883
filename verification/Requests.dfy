/** The other direction of a streaming call: from the messages an application sends to those that the handler's
    implementation reads. A request has no end of its own. */
module Requests {
  import opened Base
  import opened Http
  import opened Envelopes
  import opened SplitEnvelope
  import opened Pipeline
  import opened EndToEnd

  /** What the client sends. */
  function Request<M(!new), E(!new)>(call: Call<M, E>, inputs: Stream<M>): Stream<seq<byte>> {
    RequestStream(inputs, call.messages, call.compression, call.compressMinBytes)
  }

  /** What the handler reads from a body that ends as `end` says. */
  function Handled<M(!new), E(!new)>(call: Call<M, E>, refuse: bool, bytes: seq<byte>, end: Ending): Stream<M>
    requires IsFlag(call.endFlag)
  {
    HandlerStream(bytes, end, call.messages, Some(call.endFlag), refuse, call.compression, call.readMaxBytes)
  }

  // ---- parsing -----------------------------------------------------------

  function PayloadParser<M(!new)>(messages: Serialization<M>): Envelope -> Result<M, Thrown> {
    (e: Envelope) => messages.parse(e.data)
  }

  /** Envelopes without the end flag are parsed one after the other, up to the first that does not parse; and without an
      end flag to look for, every envelope is, whatever its flags. */
  lemma {:induction false} UnflaggedIsParsed<M(!new)>(messages: Serialization<M>, endFlag: Option<byte>, refuse: bool, s: Stream<Envelope>)
    requires endFlag.Some? ==> IsFlag(endFlag.value) && forall i :: 0 <= i < |s.items| ==> !HasFlag(s.items[i].flags, endFlag.value)
    ensures ParsePlain(messages, endFlag, refuse, s) == MapStream(PayloadParser(messages), s)
    decreases |s.items|
  {
    if s.items != [] {
      UnflaggedIsParsed(messages, endFlag, refuse, Stream(s.items[1..], s.end));
    }
  }

  /** A lenient handler reads the same with an envelope that has the end flag as without, wherever it is. */
  lemma {:induction false} FlaggedIsSkipped<M(!new)>(messages: Serialization<M>, endFlag: byte, before: seq<Envelope>,
                                                     flagged: Envelope, after: seq<Envelope>, end: Ending)
    requires IsFlag(endFlag) && HasFlag(flagged.flags, endFlag)
    ensures ParsePlain(messages, Some(endFlag), false, Stream(before + [flagged] + after, end))
         == ParsePlain(messages, Some(endFlag), false, Stream(before + after, end))
    decreases |before|
  {
    var all := before + [flagged] + after;
    if before == [] {
      assert all[0] == flagged && all[1..] == after == before + after;
    } else {
      assert all[0] == before[0] && all[1..] == before[1..] + [flagged] + after;
      assert (before + after)[0] == before[0] && (before + after)[1..] == before[1..] + after;
      FlaggedIsSkipped(messages, endFlag, before[1..], flagged, after, end);
    }
  }

  /** A strict one reads what comes before it, and then, if all of that could be parsed, raises an error. */
  lemma {:induction false} FlaggedIsRefused<M(!new)>(messages: Serialization<M>, endFlag: byte, before: seq<Envelope>,
                                                     flagged: Envelope, after: seq<Envelope>, end: Ending)
    requires IsFlag(endFlag) && HasFlag(flagged.flags, endFlag)
    requires forall i :: 0 <= i < |before| ==> !HasFlag(before[i].flags, endFlag)
    ensures ParsePlain(messages, Some(endFlag), true, Stream(before + [flagged] + after, end))
         == MapStream(PayloadParser(messages), Stream(before, Fails(Raised(ConnectError(3, "unexpected end flag", map[], [])))))
    decreases |before|
  {
    var all := before + [flagged] + after;
    if before == [] {
      assert all[0] == flagged;
    } else {
      assert all[0] == before[0] && all[1..] == before[1..] + [flagged] + after;
      FlaggedIsRefused(messages, endFlag, before[1..], flagged, after, end);
    }
  }

  // ---- the whole request -------------------------------------------------

  /** The envelopes of a request have neither flag, and parse to its messages within the limit. */
  lemma SentPlain<M(!new), E(!new)>(call: Call<M, E>, inputs: Stream<M>)
    requires call.Valid() && Faithful(call.messages, inputs.items, call.readMaxBytes)
    ensures
      var sent := call.Sent(inputs).items;
      && |sent| <= |inputs.items| && Plain(sent)
      && (forall i :: 0 <= i < |sent| ==> !HasFlag(sent[i].flags, call.endFlag))
      && forall i :: 0 <= i < |sent| && |sent[i].data| <= call.readMaxBytes ==>
           call.messages.parse(sent[i].data) == Ok(inputs.items[i])
  {
    MapStreamIsPrefix(Serializer(call.messages), inputs);
    var sent := call.Sent(inputs).items;
    forall i | 0 <= i < |sent| ensures sent[i].flags == 0 && !HasFlag(0, call.endFlag) && !HasFlag(0, COMPRESSED_FLAG) {
      assert Serializer(call.messages)(inputs.items[i]) == Ok(sent[i]);
    }
  }

  lemma RequestBytes<M(!new), E(!new)>(call: Call<M, E>, inputs: Stream<M>)
    requires Plain(call.Sent(inputs).items)
    ensures Flatten(Request(call, inputs).items) == EncodeAll(WireAll(call, call.Sent(inputs).items))
  {
    var sent := call.Sent(inputs);
    SentBytes(call, sent.items, sent.end);
    FlattenChunks(WireAll(call, sent.items));
  }

  /** What the handler reads of the first envelopes of a request, once they are opened. */
  lemma HandlerReads<M(!new), E(!new)>(call: Call<M, E>, inputs: Stream<M>, refuse: bool, envelopes: Stream<Envelope>)
    requires call.Valid() && Faithful(call.messages, inputs.items, call.readMaxBytes)
    requires envelopes.items <= call.Sent(inputs).items
    requires forall i :: 0 <= i < |envelopes.items| ==> |envelopes.items[i].data| <= call.readMaxBytes
    ensures |envelopes.items| <= |inputs.items|
    ensures ParsePlain(call.messages, Some(call.endFlag), refuse, envelopes)
         == Stream(inputs.items[..|envelopes.items|], envelopes.end)
  {
    SentPlain(call, inputs);
    UnflaggedIsParsed(call.messages, Some(call.endFlag), refuse, envelopes);
    MapStreamOk(PayloadParser(call.messages), envelopes, inputs.items[..|envelopes.items|]);
  }

  lemma FittingRequest<M(!new), E(!new)>(call: Call<M, E>, inputs: Stream<M>, refuse: bool, chunks: seq<seq<byte>>, end: Ending)
    requires call.Valid() && Faithful(call.messages, inputs.items, call.readMaxBytes)
    requires forall i :: 0 <= i < |call.Sent(inputs).items| ==> Fits(call, call.Sent(inputs).items[i])
    requires Flatten(chunks) == Flatten(Request(call, inputs).items)
    ensures |call.Sent(inputs).items| <= |inputs.items|
    ensures Handled(call, refuse, Flatten(chunks), end) == Stream(inputs.items[..|call.Sent(inputs).items|], end)
  {
    var sent := call.Sent(inputs).items;
    SentPlain(call, inputs);
    RequestBytes(call, inputs);
    AllOpened(call, sent, end);
    HandlerReads(call, inputs, refuse, Stream(sent, end));
  }

  /** For every list of inputs, every compression, every re-chunking of the bytes and every way in which the body ends:
      the handler reads exactly the messages that could be serialized, in order, and then sees that ending, if and
      only if every payload is within readMaxBytes. */
  lemma RequestDelivery<M(!new), E(!new)>(call: Call<M, E>, inputs: Stream<M>, refuse: bool, chunks: seq<seq<byte>>, end: Ending)
    requires call.Valid() && Faithful(call.messages, inputs.items, call.readMaxBytes)
    requires forall i :: 0 <= i < |call.Sent(inputs).items| ==> |call.Wire(call.Sent(inputs).items[i]).data| < TWO_32
    requires Flatten(chunks) == Flatten(Request(call, inputs).items)
    ensures
      var sent := call.Sent(inputs).items;
      && |sent| <= |inputs.items|
      && (Handled(call, refuse, Flatten(chunks), end) == Stream(inputs.items[..|sent|], end)
          <==> forall i :: 0 <= i < |sent| ==> Fits(call, sent[i]))
  {
    var sent := call.Sent(inputs).items;
    SentPlain(call, inputs);
    if forall i :: 0 <= i < |sent| ==> Fits(call, sent[i]) {
      FittingRequest(call, inputs, refuse, chunks, end);
    } else {
      var k := FirstUnfit(call, sent);
      OversizeRequest(call, inputs, refuse, k, chunks, end);
      assert |Handled(call, refuse, Flatten(chunks), end).items| == k;
    }
  }

  /** The first message that does not fit ends the request, after all messages before it. */
  lemma OversizeRequest<M(!new), E(!new)>(call: Call<M, E>, inputs: Stream<M>, refuse: bool, k: nat,
                                          chunks: seq<seq<byte>>, end: Ending)
    requires call.Valid() && Faithful(call.messages, inputs.items, call.readMaxBytes)
    requires
      var sent := call.Sent(inputs).items;
      && k < |sent| && !Fits(call, sent[k]) && |call.Wire(sent[k]).data| < TWO_32
      && forall i :: 0 <= i < k ==> Fits(call, sent[i])
    requires Flatten(chunks) == Flatten(Request(call, inputs).items)
    ensures k <= |inputs.items|
    ensures Handled(call, refuse, Flatten(chunks), end)
         == Stream(inputs.items[..k], Fails(MisfitReason(call, call.Sent(inputs).items[k])))
  {
    var sent := call.Sent(inputs).items;
    SentPlain(call, inputs);
    RequestBytes(call, inputs);
    FirstMisfit(call, sent, k, end);
    HandlerReads(call, inputs, refuse, Stream(sent[..k], Fails(MisfitReason(call, sent[k]))));
  }

  // ---- a request that is cut short ---------------------------------------

  /** Where an envelope of the request ends, or where it starts. */
  ghost predicate IsBoundary<M(!new), E(!new)>(call: Call<M, E>, envs: seq<Envelope>, k: nat, j: nat) {
    j <= |envs| && k == |EncodeAll(WireAll(call, envs[..j]))|
  }

  lemma WirePrefix<M(!new), E(!new)>(call: Call<M, E>, envs: seq<Envelope>, j: nat)
    requires j <= |envs|
    ensures WireAll(call, envs[..j]) == WireAll(call, envs)[..j]
    ensures EncodeAll(WireAll(call, envs)) == EncodeAll(WireAll(call, envs[..j])) + EncodeAll(WireAll(call, envs)[j..])
  {
    var wire := WireAll(call, envs);
    EncodeAllAppend(wire[..j], wire[j..]);
    assert wire == wire[..j] + wire[j..];
    assert WireAll(call, envs[..j]) == wire[..j];
  }

  /** Up to a boundary, the body is one of fewer envelopes. */
  lemma BoundaryOpens<M(!new), E(!new)>(call: Call<M, E>, envs: seq<Envelope>, k: nat, j: nat)
    requires call.Valid() && Plain(envs) && IsBoundary(call, envs, k, j)
    requires forall i :: 0 <= i < |envs| ==> Fits(call, envs[i])
    ensures k <= |EncodeAll(WireAll(call, envs))|
    ensures call.Open(EncodeAll(WireAll(call, envs))[..k], Done) == Stream(envs[..j], Done)
  {
    WirePrefix(call, envs, j);
    assert EncodeAll(WireAll(call, envs))[..k] == EncodeAll(WireAll(call, envs[..j]));
    AllOpened(call, envs[..j], Done);
  }

  /** Only at a boundary can a body be cut and end cleanly. */
  lemma CleanIsBoundary<M(!new), E(!new)>(call: Call<M, E>, envs: seq<Envelope>, k: nat) returns (j: nat)
    requires call.Valid() && Plain(envs) && k < |EncodeAll(WireAll(call, envs))|
    requires forall i :: 0 <= i < |envs| ==> |call.Wire(envs[i]).data| < TWO_32
    requires call.Open(EncodeAll(WireAll(call, envs))[..k], Done).end.Done?
    ensures IsBoundary(call, envs, k, j)
  {
    var wire := WireAll(call, envs);
    var bytes := EncodeAll(wire)[..k];
    MapStreamIsPrefix(Decompressor(call.compression, call.readMaxBytes), SplitStream(bytes, Done, call.readMaxBytes));
    CutSplit(wire, k, call.readMaxBytes);
    var s := SplitBytes(bytes, call.readMaxBytes);
    SplitConserves(bytes, call.readMaxBytes);
    assert s.rest == [] && EncodeAll(s.envelopes) + [] == EncodeAll(s.envelopes);
    j := |s.envelopes|;
    WirePrefix(call, envs, j);
    assert s.envelopes == wire[..j];
  }

  /** A truncated request passes for a whole one if and only if it is cut where an envelope ends: there, the handler
      finishes normally, with all messages up to the cut. In any case it reads a prefix of the messages. */
  lemma RequestCutPasses<M(!new), E(!new)>(call: Call<M, E>, inputs: Stream<M>, refuse: bool, k: nat)
    requires call.Valid() && Faithful(call.messages, inputs.items, call.readMaxBytes)
    requires forall i :: 0 <= i < |call.Sent(inputs).items| ==> Fits(call, call.Sent(inputs).items[i])
    requires k < |Flatten(Request(call, inputs).items)|
    ensures
      var sent := call.Sent(inputs).items;
      var r := Handled(call, refuse, Flatten(Request(call, inputs).items)[..k], Done);
      && |sent| <= |inputs.items| && r.items <= inputs.items[..|sent|]
      && (r.end.Done? <==> exists j: nat :: IsBoundary(call, sent, k, j))
      && forall j: nat :: IsBoundary(call, sent, k, j) ==> r == Stream(inputs.items[..j], Done)
  {
    var sent := call.Sent(inputs).items;
    SentPlain(call, inputs);
    RequestBytes(call, inputs);
    CutDecompressed(call, sent, k);
    var envelopes := call.Open(EncodeAll(WireAll(call, sent))[..k], Done);
    HandlerReads(call, inputs, refuse, envelopes);
    forall j: nat | IsBoundary(call, sent, k, j) ensures envelopes == Stream(sent[..j], Done) {
      BoundaryOpens(call, sent, k, j);
    }
    if envelopes.end.Done? {
      var j := CleanIsBoundary(call, sent, k);
    }
  }
}
