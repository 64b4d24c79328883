/** transformSplitEnvelope: re-assembles envelopes from bytes that arrive in chunks of any size. */
module SplitEnvelope {
  import opened Base
  import opened Js
  import opened Http
  import opened Envelopes

  /** None while the header is incomplete. */
  function PeekHeader(buffer: seq<byte>): Option<Header> {
    if |buffer| < 5 then None else Some(Header(ReadU32(buffer[1..5]), buffer[0]))
  }

  /** None, and the buffer itself, while the payload is incomplete. */
  function ShiftEnvelope(buffer: seq<byte>, header: Header): (Option<Envelope>, seq<byte>)
    requires |buffer| >= 5
  {
    if |buffer| < 5 + header.length then (None, buffer)
    else (Some(Envelope(header.flags, buffer[5..5 + header.length])), buffer[5 + header.length..])
  }

  function Oversize(length: nat, readMaxBytes: nat): Thrown {
    Failure(RESOURCE_EXHAUSTED, "message size " + NatToString(length)
      + " is larger than configured readMaxBytes " + NatToString(readMaxBytes))
  }

  function Promised(length: nat, got: nat): string {
    "protocol error: promised " + NatToString(length)
      + " bytes in enveloped message, got " + NatToString(got) + " bytes"
  }

  function Incomplete(buffer: seq<byte>): Thrown {
    Failure(INVALID_ARGUMENT,
      match PeekHeader(buffer)
      case None => "protocol error: incomplete envelope"
      case Some(h) => Promised(h.length, |buffer| - 5))
  }

  // ---- specification -----------------------------------------------------

  /** The envelopes in a run of bytes, the bytes left over, and the announced length of the
      envelope that stopped the splitter, if one exceeded the limit. */
  datatype Split = Split(envelopes: seq<Envelope>, rest: seq<byte>, oversize: Option<nat>)

  function SplitBytes(bytes: seq<byte>, readMaxBytes: nat): Split {
    match PeekHeader(bytes)
    case None => Split([], bytes, None)
    case Some(h) =>
      if h.length > readMaxBytes then Split([], bytes, Some(h.length))
      else if |bytes| < 5 + h.length then Split([], bytes, None)
      else Prepend([Envelope(h.flags, bytes[5..5 + h.length])], SplitBytes(bytes[5 + h.length..], readMaxBytes))
  }

  function Prepend(envelopes: seq<Envelope>, s: Split): Split {
    Split(envelopes + s.envelopes, s.rest, s.oversize)
  }

  /** What splitting delivers, given all the bytes and how their source ended. */
  function SplitStream(bytes: seq<byte>, end: Ending, readMaxBytes: nat): Stream<Envelope> {
    var s := SplitBytes(bytes, readMaxBytes);
    Stream(s.envelopes,
      if s.oversize.Some? then Fails(Oversize(s.oversize.value, readMaxBytes))
      else if end.Fails? then end
      else if s.rest != [] then Fails(Incomplete(s.rest))
      else Done)
  }

  /** Shifting an envelope off the buffer takes the front of the bytes still to be split. */
  lemma ShiftIsFront(buffer: seq<byte>, e: Envelope, rest: seq<byte>, readMaxBytes: nat)
    requires |buffer| >= 5 && PeekHeader(buffer).value.length <= readMaxBytes
    requires ShiftEnvelope(buffer, PeekHeader(buffer).value) == (Some(e), rest)
    ensures buffer == Encode(e) + rest && |rest| < |buffer| && |e.data| <= readMaxBytes && |e.data| < TWO_32
    ensures SplitBytes(buffer, readMaxBytes) == Prepend([e], SplitBytes(rest, readMaxBytes))
  {
    U32OfReadU32(buffer[1..5]);
    assert buffer == Encode(e) + rest;
  }

  /** Splitting can stop after any prefix and go on with what was left over. */
  lemma {:induction false} SplitAppend(a: seq<byte>, b: seq<byte>, readMaxBytes: nat)
    ensures
      var s := SplitBytes(a, readMaxBytes);
      SplitBytes(a + b, readMaxBytes)
        == if s.oversize.Some? then s.(rest := s.rest + b)
           else Prepend(s.envelopes, SplitBytes(s.rest + b, readMaxBytes))
    decreases |a|
  {
    if |a| >= 5 {
      PeekAppend(a, b);
      var h := PeekHeader(a).value;
      if h.length <= readMaxBytes && |a| >= 5 + h.length {
        var (e, rest) := ShiftEnvelope(a, h);
        ShiftIsFront(a, e.value, rest, readMaxBytes);
        SplitAppend(rest, b, readMaxBytes);
        ShiftAppend(a, b, h);
        ShiftIsFront(a + b, e.value, rest + b, readMaxBytes);
        var s := SplitBytes(rest, readMaxBytes);
        if s.oversize.None? {
          PrependTwice([e.value], s.envelopes, SplitBytes(s.rest + b, readMaxBytes));
        }
      }
    }
  }

  lemma PeekAppend(a: seq<byte>, b: seq<byte>)
    requires |a| >= 5
    ensures PeekHeader(a + b) == PeekHeader(a)
  {
  }

  lemma ShiftAppend(a: seq<byte>, b: seq<byte>, h: Header)
    requires |a| >= 5 + h.length
    ensures ShiftEnvelope(a + b, h) == (ShiftEnvelope(a, h).0, ShiftEnvelope(a, h).1 + b)
  {
    assert (a + b)[5..5 + h.length] == a[5..5 + h.length];
    assert (a + b)[5 + h.length..] == a[5 + h.length..] + b;
  }

  /** No byte is lost or invented: the envelopes, encoded again, and the left-over bytes are the input. */
  lemma {:induction false} SplitConserves(bytes: seq<byte>, readMaxBytes: nat)
    ensures
      var s := SplitBytes(bytes, readMaxBytes);
      && EncodeAll(s.envelopes) + s.rest == bytes
      && forall e :: e in s.envelopes ==> |e.data| <= readMaxBytes && |e.data| < TWO_32
    decreases |bytes|
  {
    if |bytes| >= 5 && PeekHeader(bytes).value.length <= readMaxBytes {
      var (e, rest) := ShiftEnvelope(bytes, PeekHeader(bytes).value);
      if e.Some? {
        ShiftIsFront(bytes, e.value, rest, readMaxBytes);
        SplitConserves(rest, readMaxBytes);
        EncodeAllFront(e.value, SplitBytes(rest, readMaxBytes).envelopes, SplitBytes(rest, readMaxBytes).rest);
      }
    }
  }

  lemma EncodeAllFront(e: Envelope, envs: seq<Envelope>, rest: seq<byte>)
    ensures EncodeAll([e] + envs) + rest == Encode(e) + (EncodeAll(envs) + rest)
  {
  }

  lemma HeaderOfEncoded(e: Envelope, rest: seq<byte>)
    requires |e.data| < TWO_32
    ensures PeekHeader(Encode(e) + rest) == Some(Header(|e.data|, e.flags))
  {
    ReadU32OfU32(|e.data|);
    assert (Encode(e) + rest)[1..5] == U32(|e.data|);
  }

  lemma ShiftOfEncoded(e: Envelope, rest: seq<byte>)
    ensures ShiftEnvelope(Encode(e) + rest, Header(|e.data|, e.flags)) == (Some(e), rest)
  {
  }

  /** One envelope at the front is either taken off, or stops the splitter because of its length. */
  lemma SplitFront(e: Envelope, rest: seq<byte>, readMaxBytes: nat)
    requires |e.data| < TWO_32
    ensures SplitBytes(Encode(e) + rest, readMaxBytes)
         == if |e.data| <= readMaxBytes then Prepend([e], SplitBytes(rest, readMaxBytes))
            else Split([], Encode(e) + rest, Some(|e.data|))
  {
    HeaderOfEncoded(e, rest);
    if |e.data| <= readMaxBytes {
      ShiftOfEncoded(e, rest);
      ShiftIsFront(Encode(e) + rest, e, rest, readMaxBytes);
    }
  }

  /** Envelopes within the limit come back whole, in order, whatever bytes follow them. */
  lemma {:induction false} SplitEncoded(envs: seq<Envelope>, tail: seq<byte>, readMaxBytes: nat)
    requires forall e :: e in envs ==> |e.data| <= readMaxBytes && |e.data| < TWO_32
    ensures SplitBytes(EncodeAll(envs) + tail, readMaxBytes) == Prepend(envs, SplitBytes(tail, readMaxBytes))
    decreases |envs|
  {
    if envs == [] {
      assert EncodeAll(envs) + tail == tail;
    } else {
      ConcatAssociates(Encode(envs[0]), EncodeAll(envs[1..]), tail);
      SplitFront(envs[0], EncodeAll(envs[1..]) + tail, readMaxBytes);
      SplitEncoded(envs[1..], tail, readMaxBytes);
      PrependTwice([envs[0]], envs[1..], SplitBytes(tail, readMaxBytes));
      assert [envs[0]] + envs[1..] == envs;
    }
  }

  lemma PrependTwice(a: seq<Envelope>, b: seq<Envelope>, s: Split)
    ensures Prepend(a, Prepend(b, s)) == Prepend(a + b, s)
  {
  }

  /** Splitting undoes joining exactly when every payload is within the limit, provided that lengths fit 32 bits. */
  lemma {:induction false} SplitUndoesJoin(envs: seq<Envelope>, readMaxBytes: nat)
    requires forall e :: e in envs ==> |e.data| < TWO_32
    ensures SplitStream(EncodeAll(envs), Done, readMaxBytes) == Stream(envs, Done)
       <==> forall e :: e in envs ==> |e.data| <= readMaxBytes
  {
    if forall e :: e in envs ==> |e.data| <= readMaxBytes {
      SplitEncoded(envs, [], readMaxBytes);
      assert EncodeAll(envs) + [] == EncodeAll(envs);
    } else {
      SplitConserves(EncodeAll(envs), readMaxBytes);
    }
  }

  /** The first payload above the limit ends the stream with ResourceExhausted, after all envelopes before it. */
  lemma SplitStopsAtOversize(before: seq<Envelope>, big: Envelope, after: seq<byte>, end: Ending, readMaxBytes: nat)
    requires forall e :: e in before ==> |e.data| <= readMaxBytes && |e.data| < TWO_32
    requires readMaxBytes < |big.data| < TWO_32
    ensures SplitStream(EncodeAll(before) + Encode(big) + after, end, readMaxBytes)
         == Stream(before, Fails(Oversize(|big.data|, readMaxBytes)))
    ensures Oversize(|big.data|, readMaxBytes).error.code == 8
  {
    assert EncodeAll(before) + Encode(big) + after == EncodeAll(before) + (Encode(big) + after);
    SplitEncoded(before, Encode(big) + after, readMaxBytes);
    SplitFront(big, after, readMaxBytes);
  }

  /** Whole envelopes, and what there is of one more: an error of the source is raised; otherwise there is one with the code
      InvalidArgument (3), unless nothing is left over. */
  lemma SplitEnds(envs: seq<Envelope>, tail: seq<byte>, end: Ending, readMaxBytes: nat)
    requires forall e :: e in envs ==> |e.data| <= readMaxBytes && |e.data| < TWO_32
    requires |tail| >= 5 ==> |tail| < 5 + ReadU32(tail[1..5]) && ReadU32(tail[1..5]) <= readMaxBytes
    ensures SplitStream(EncodeAll(envs) + tail, end, readMaxBytes)
         == Stream(envs,
              if end.Fails? || tail == [] then end
              else Fails(Raised(ConnectError(3,
                if |tail| < 5 then "protocol error: incomplete envelope"
                else "protocol error: promised " + NatToString(ReadU32(tail[1..5])) + " bytes in enveloped message, got "
                     + NatToString(|tail| - 5) + " bytes", map[], []))))
  {
    SplitEncoded(envs, tail, readMaxBytes);
    assert SplitBytes(tail, readMaxBytes) == Split([], tail, None);
    assert envs + [] == envs;
    if |tail| >= 5 {
      assert Promised(ReadU32(tail[1..5]), |tail| - 5)
          == "protocol error: promised " + NatToString(ReadU32(tail[1..5])) + " bytes in enveloped message, got "
             + NatToString(|tail| - 5) + " bytes";
    }
  }

  lemma EncodeAllMoves(emitted: seq<Envelope>, e: Envelope, rest: seq<byte>)
    ensures EncodeAll(emitted + [e]) + rest == EncodeAll(emitted) + (Encode(e) + rest)
  {
    EncodeAllSnoc(emitted, e);
  }

  lemma SplitGoesOn(consumed: seq<byte>, chunk: seq<byte>, emitted: seq<Envelope>, buffer: seq<byte>, readMaxBytes: nat)
    requires SplitBytes(consumed, readMaxBytes) == Split(emitted, buffer, None)
    ensures SplitBytes(consumed + chunk, readMaxBytes) == Prepend(emitted, SplitBytes(buffer + chunk, readMaxBytes))
  {
    SplitAppend(consumed, chunk, readMaxBytes);
  }

  /** Bytes that arrive after the limit was exceeded make no difference. */
  lemma SplitStopped(consumed: seq<byte>, more: seq<byte>, end: Ending, readMaxBytes: nat)
    requires SplitBytes(consumed, readMaxBytes).oversize.Some?
    ensures
      var s := SplitBytes(consumed, readMaxBytes);
      SplitStream(consumed + more, end, readMaxBytes)
        == Stream(s.envelopes, Fails(Oversize(s.oversize.value, readMaxBytes)))
  {
    SplitAppend(consumed, more, readMaxBytes);
  }

  lemma SplitStoppedAt(source: Stream<seq<byte>>, i: nat, readMaxBytes: nat)
    requires i <= |source.items| && SplitBytes(Flatten(source.items[..i]), readMaxBytes).oversize.Some?
    ensures
      var s := SplitBytes(Flatten(source.items[..i]), readMaxBytes);
      SplitStream(Flatten(source.items), source.end, readMaxBytes)
        == Stream(s.envelopes, Fails(Oversize(s.oversize.value, readMaxBytes)))
  {
    FlattenAppend(source.items[..i], source.items[i..]);
    assert source.items == source.items[..i] + source.items[i..];
    SplitStopped(Flatten(source.items[..i]), Flatten(source.items[i..]), source.end, readMaxBytes);
  }

  // ---- the splitter ------------------------------------------------------

  /** The error for a length that exceeds the limit, if there is one. */
  function LimitError(s: Split, readMaxBytes: nat): Option<Thrown> {
    match s.oversize
    case Some(length) => Some(Oversize(length, readMaxBytes))
    case None => None
  }

  /** The inner loop: yields envelopes from the buffer until it is incomplete, or until a length exceeds the limit. */
  method ShiftAll(start: seq<byte>, readMaxBytes: nat)
    returns (envelopes: seq<Envelope>, buffer: seq<byte>, error: Option<Thrown>)
    ensures
      var s := SplitBytes(start, readMaxBytes);
      envelopes == s.envelopes && buffer == s.rest && error == LimitError(s, readMaxBytes)
  {
    envelopes, buffer, error := [], start, None;
    while true
      invariant EncodeAll(envelopes) + buffer == start && error == None
      invariant SplitBytes(start, readMaxBytes) == Prepend(envelopes, SplitBytes(buffer, readMaxBytes))
      decreases |buffer|
    {
      var header := PeekHeader(buffer);
      if header.None? {
        return;
      }
      if header.value.length > readMaxBytes {
        error := Some(Oversize(header.value.length, readMaxBytes));
        return;
      }
      var (env, rest) := ShiftEnvelope(buffer, header.value);
      if env.None? {
        buffer := rest;
        return;
      }
      ShiftIsFront(buffer, env.value, rest, readMaxBytes);
      EncodeAllMoves(envelopes, env.value, rest);
      PrependTwice(envelopes, [env.value], SplitBytes(rest, readMaxBytes));
      envelopes, buffer := envelopes + [env.value], rest;
    }
  }

  class EnvelopeSplitter {
    const readMaxBytes: nat
    var buffer: seq<byte>
    ghost var consumed: seq<byte>
    ghost var emitted: seq<Envelope>

    ghost function SoFar(): Split
      reads this
    {
      SplitBytes(consumed, readMaxBytes)
    }

    /** Where the splitter stands after the bytes it consumed. */
    ghost predicate Stands()
      reads this
    {
      EncodeAll(emitted) + buffer == consumed && emitted == SoFar().envelopes && buffer == SoFar().rest
    }

    /** No length has exceeded the limit. */
    ghost predicate Runs()
      reads this
    {
      Stands() && SoFar().oversize.None?
    }

    constructor (readMaxBytes: nat)
      ensures Runs() && consumed == [] && emitted == [] && this.readMaxBytes == readMaxBytes
    {
      this.readMaxBytes := readMaxBytes;
      buffer, consumed, emitted := [], [], [];
    }

    /** Takes one chunk; returns the envelopes that are yielded for it, and the error raised, if any. */
    method Chunk(chunk: seq<byte>) returns (envelopes: seq<Envelope>, error: Option<Thrown>)
      requires Runs()
      modifies this
      ensures Stands() && consumed == old(consumed) + chunk && emitted == old(emitted) + envelopes
      ensures error == LimitError(SoFar(), readMaxBytes)
    {
      SplitGoesOn(consumed, chunk, emitted, buffer, readMaxBytes);
      buffer := buffer + chunk;
      consumed := consumed + chunk;
      envelopes, buffer, error := ShiftAll(buffer, readMaxBytes);
      emitted := emitted + envelopes;
      SplitConserves(consumed, readMaxBytes);
    }

    /** The source is exhausted. */
    method Finish() returns (end: Ending)
      requires Runs()
      ensures Stream(emitted, end) == SplitStream(consumed, Done, readMaxBytes)
    {
      end := if |buffer| > 0 then Fails(Incomplete(buffer)) else Done;
    }
  }

  /** The generator: for every chunking, what it yields and how it ends is a function of the
      concatenated bytes alone. */
  method TransformSplitEnvelope(source: Stream<seq<byte>>, readMaxBytes: nat) returns (out: Stream<Envelope>)
    ensures out == SplitStream(Flatten(source.items), source.end, readMaxBytes)
  {
    var splitter := new EnvelopeSplitter(readMaxBytes);
    var envelopes: seq<Envelope> := [];
    for i := 0 to |source.items|
      invariant splitter.Runs() && fresh(splitter) && splitter.readMaxBytes == readMaxBytes
      invariant splitter.consumed == Flatten(source.items[..i]) && splitter.emitted == envelopes
    {
      var more, error := splitter.Chunk(source.items[i]);
      envelopes := envelopes + more;
      FlattenSnoc(source.items[..i], source.items[i]);
      assert source.items[..i + 1] == source.items[..i] + [source.items[i]];
      if error.Some? {
        SplitStoppedAt(source, i + 1, readMaxBytes);
        return Stream(envelopes, Fails(error.value));
      }
    }
    assert source.items[..|source.items|] == source.items;
    var end := source.end;
    if end.Done? {
      end := splitter.Finish();
    }
    out := Stream(envelopes, end);
  }
}
