/** createEnvelopeReadableStream: the second splitter. It reads lengths with signed 32-bit shifts,
    and hands out whatever is left as a short payload when the source ends early. */
module EnvelopeReader {
  import opened Base
  import opened Http
  import opened Envelopes
  import opened SplitEnvelope

  // ---- signed lengths ----------------------------------------------------

  function ToInt32(x: int): int {
    if x % TWO_32 >= TWO_31 then x % TWO_32 - TWO_32 else x % TWO_32
  }

  /** `(length << 8) + next` */
  function Accumulate(length: int, next: byte): int {
    ToInt32(length * TWO_8) + next
  }

  function Accumulated(b: seq<byte>): int {
    if b == [] then 0 else Accumulate(Accumulated(b[..|b| - 1]), b[|b| - 1])
  }

  function SignedLength(b: seq<byte>): int
    requires |b| == 4
  {
    Accumulated(b)
  }

  lemma AccumulateStep(b: seq<byte>, n: nat)
    requires n < |b|
    ensures Accumulated(b[..n + 1]) == Accumulate(Accumulated(b[..n]), b[n])
  {
    assert b[..n + 1][..n] == b[..n];
  }

  /** The shifts compute the big-endian length exactly when it is below 2^31, and a negative number otherwise. */
  lemma SignedLengthIsLength(b: seq<byte>)
    requires |b| == 4
    ensures SignedLength(b) == if ReadU32(b) < TWO_31 then ReadU32(b) else ReadU32(b) - TWO_32
    ensures SignedLength(b) == ReadU32(b) <==> ReadU32(b) < TWO_31
  {
    Unrolled(b);
  }

  lemma Unrolled(b: seq<byte>)
    requires |b| == 4
    ensures SignedLength(b) == Accumulate(Accumulate(Accumulate(Accumulate(0, b[0]), b[1]), b[2]), b[3])
  {
    AccumulateStep(b, 0);
    AccumulateStep(b, 1);
    AccumulateStep(b, 2);
    AccumulateStep(b, 3);
    assert b[..4] == b;
  }

  /** TypedArray.subarray: negative positions count from the end. */
  function Subarray(s: seq<byte>, begin: int, end: int): seq<byte> {
    var from := Position(|s|, begin);
    var to := Position(|s|, end);
    if from <= to then s[from..to] else []
  }

  function Position(length: nat, p: int): (r: nat)
    ensures r <= length
  {
    if p < 0 then (if length + p < 0 then 0 else length + p) else if p > length then length else p
  }

  // ---- specification -----------------------------------------------------

  /** What one pull does with the consumer's queue. */
  datatype PullResult = Enqueued(envelope: Envelope) | Closed | Errored(reason: Thrown)

  const PREMATURE_END := Failure(DATA_LOSS, "premature end of stream")

  /** The reader: its buffer, the chunks that the underlying stream still has to deliver, and how that ends. */
  datatype Reader = Reader(buffer: seq<byte>, pending: seq<seq<byte>>, end: Ending)

  predicate HasEnvelope(buffer: seq<byte>) {
    |buffer| >= 5 && |buffer| >= SignedLength(buffer[1..5]) + 5
  }

  /** Reads until an envelope is complete, or the source is exhausted. */
  function Fill(r: Reader): Reader
    decreases |r.pending|
  {
    if HasEnvelope(r.buffer) || r.pending == [] then r
    else Fill(Reader(r.buffer + r.pending[0], r.pending[1..], r.end))
  }

  /** Takes an envelope of the announced length, or what there is of it, off the buffer. */
  function Take(r: Reader): (PullResult, Reader) {
    if |r.buffer| >= 5 then
      var length := SignedLength(r.buffer[1..5]);
      (Enqueued(Envelope(r.buffer[0], Subarray(r.buffer, 5, 5 + length))),
       r.(buffer := Subarray(r.buffer, 5 + length, |r.buffer|)))
    else if r.buffer == [] then (Closed, r)
    else (Errored(PREMATURE_END), r)
  }

  /** Waiting for a chunk that never comes raises the error of the underlying stream. */
  function Pull(r: Reader): (PullResult, Reader) {
    var f := Fill(r);
    if !HasEnvelope(f.buffer) && f.end.Fails? then (Errored(f.end.reason), f) else Take(f)
  }

  /** What at most `n` pulls do; nothing follows a closed or errored stream. */
  function Pulls(r: Reader, n: nat): seq<PullResult>
    decreases n
  {
    if n == 0 then []
    else
      var (result, r') := Pull(r);
      if result.Enqueued? then [result] + Pulls(r', n - 1) else [result]
  }

  function Remaining(r: Reader): seq<byte> {
    r.buffer + Flatten(r.pending)
  }

  // ---- properties --------------------------------------------------------

  lemma {:induction false} FillKeepsBytes(r: Reader)
    ensures Remaining(Fill(r)) == Remaining(r) && Fill(r).end == r.end
    ensures HasEnvelope(Fill(r).buffer) || Fill(r).pending == []
    decreases |r.pending|
  {
    if !HasEnvelope(r.buffer) && r.pending != [] {
      var r' := Reader(r.buffer + r.pending[0], r.pending[1..], r.end);
      FillKeepsBytes(r');
      ConcatAssociates(r.buffer, r.pending[0], Flatten(r.pending[1..]));
    }
  }

  /** A pull takes the front envelope, however the bytes are spread over buffer and chunks. */
  lemma PullFront(r: Reader, e: Envelope, rest: seq<byte>)
    requires |e.data| < TWO_31 && Remaining(r) == Encode(e) + rest
    ensures Pull(r).0 == Enqueued(e) && Remaining(Pull(r).1) == rest && Pull(r).1.end == r.end
  {
    var f := Fill(r);
    FillKeepsBytes(r);
    if f.pending == [] {
      assert Flatten(f.pending) == [];
      assert f.buffer == Encode(e) + rest;
      HeaderOfBuffer(f.buffer, e, rest, []);
    } else {
      HeaderOfBuffer(f.buffer, e, rest, Flatten(f.pending));
    }
    TakeComplete(f, e, rest);
  }

  lemma PullsFront(r: Reader, e: Envelope, rest: seq<byte>, n: nat) returns (next: Reader)
    requires |e.data| < TWO_31 && Remaining(r) == Encode(e) + rest && n > 0
    ensures Remaining(next) == rest && next.end == r.end && Pulls(r, n) == [Enqueued(e)] + Pulls(next, n - 1)
  {
    PullFront(r, e, rest);
    next := Pull(r).1;
  }

  /** A buffer that holds at least the header announces the length of the front envelope. */
  lemma HeaderOfBuffer(buffer: seq<byte>, e: Envelope, rest: seq<byte>, more: seq<byte>)
    requires |e.data| < TWO_31 && |buffer| >= 5 && buffer + more == Encode(e) + rest
    ensures SignedLength(buffer[1..5]) == |e.data| && buffer[0] == e.flags
  {
    HeaderOfEncoded(e, rest);
    assert buffer[1..5] == (buffer + more)[1..5];
    assert buffer[0] == (buffer + more)[0];
    SignedLengthIsLength(buffer[1..5]);
  }

  lemma TakeComplete(f: Reader, e: Envelope, rest: seq<byte>)
    requires Remaining(f) == Encode(e) + rest
    requires |f.buffer| >= 5 + |e.data| && SignedLength(f.buffer[1..5]) == |e.data| && f.buffer[0] == e.flags
    ensures Take(f).0 == Enqueued(e) && Remaining(Take(f).1) == rest && Take(f).1.end == f.end
  {
    var end := 5 + |e.data|;
    assert f.buffer[5..end] == Remaining(f)[5..end] == e.data;
    assert Remaining(f)[end..] == rest;
    assert f.buffer[end..] + Flatten(f.pending) == Remaining(f)[end..];
  }

  /** What the reader does with bytes that no longer hold a complete envelope. */
  function TailResults(tail: seq<byte>, end: Ending): seq<PullResult> {
    if end.Fails? then [Errored(end.reason)]
    else if tail == [] then [Closed]
    else if |tail| < 5 then [Errored(PREMATURE_END)]
    else [Enqueued(Envelope(tail[0], tail[5..])), Closed]
  }

  /** Bytes that start with fewer payload bytes than a length below 2^31 announces, or not even with a header. */
  predicate IsTail(tail: seq<byte>) {
    |tail| >= 5 ==> ReadU32(tail[1..5]) < TWO_31 && |tail| < 5 + ReadU32(tail[1..5])
  }

  lemma {:induction false} PullTail(r: Reader, n: nat)
    requires IsTail(Remaining(r)) && n >= 2
    ensures Pulls(r, n) == TailResults(Remaining(r), r.end)
  {
    var f, tail := Fill(r), Remaining(r);
    FillKeepsBytes(r);
    if HasEnvelope(f.buffer) {
      assert f.buffer[1..5] == tail[1..5];
      SignedLengthIsLength(tail[1..5]);
      assert false;
    } else {
      assert f.buffer + [] == tail == f.buffer;
      if |tail| >= 5 {
        SignedLengthIsLength(tail[1..5]);
        assert Subarray(tail, 5, 5 + ReadU32(tail[1..5])) == tail[5..];
        if r.end.Done? {
          assert Pull(r).1 == Reader([], [], Done);
          assert Pulls(Reader([], [], Done), n - 1) == [Closed];
        }
      }
    }
  }

  function EnqueueAll(envs: seq<Envelope>): (r: seq<PullResult>)
    ensures |r| == |envs| && forall i :: 0 <= i < |envs| ==> r[i] == Enqueued(envs[i])
  {
    seq(|envs|, i requires 0 <= i < |envs| => Enqueued(envs[i]))
  }

  lemma EnqueueFront(envs: seq<Envelope>, results: seq<PullResult>)
    requires envs != []
    ensures EnqueueAll(envs) + results == [Enqueued(envs[0])] + (EnqueueAll(envs[1..]) + results)
  {
    assert EnqueueAll(envs) == [Enqueued(envs[0])] + EnqueueAll(envs[1..]);
  }

  /** For every chunking of any bytes whose lengths stay below 2^31: the reader emits the complete
      envelopes in order, and then treats the left-over bytes as TailResults says. */
  lemma {:induction false} ReaderEmits(r: Reader, envs: seq<Envelope>, tail: seq<byte>, n: nat)
    requires Remaining(r) == EncodeAll(envs) + tail && IsTail(tail)
    requires forall e :: e in envs ==> |e.data| < TWO_31
    requires n >= |envs| + 2
    ensures Pulls(r, n) == EnqueueAll(envs) + TailResults(tail, r.end)
    decreases |envs|
  {
    if envs == [] {
      NoEnvelopes(r, tail, n);
    } else {
      var more := EncodeAll(envs[1..]) + tail;
      ConcatAssociates(Encode(envs[0]), EncodeAll(envs[1..]), tail);
      var next := PullsFront(r, envs[0], more, n);
      ReaderEmits(next, envs[1..], tail, n - 1);
      EnqueueFront(envs, TailResults(tail, r.end));
    }
  }

  lemma NoEnvelopes(r: Reader, tail: seq<byte>, n: nat)
    requires Remaining(r) == EncodeAll([]) + tail && IsTail(tail) && n >= 2
    ensures Pulls(r, n) == EnqueueAll([]) + TailResults(tail, r.end)
  {
    assert EncodeAll([]) + tail == tail;
    PullTail(r, n);
  }

  /** What the reader does when its source ends. */
  function EndResult(end: Ending): PullResult {
    match end
    case Done => Closed
    case Fails(reason) => Errored(reason)
  }

  /** On every chunking of complete envelopes below 2^31, both splitters emit the same envelopes, and then end as
      their source does. */
  lemma SplittersAgree(chunks: seq<seq<byte>>, end: Ending, envs: seq<Envelope>, readMaxBytes: nat, n: nat)
    requires Flatten(chunks) == EncodeAll(envs) && n >= |envs| + 2
    requires forall e :: e in envs ==> |e.data| < TWO_31 && |e.data| <= readMaxBytes
    ensures SplitStream(Flatten(chunks), end, readMaxBytes) == Stream(envs, end)
    ensures Pulls(Reader([], chunks, end), n) == EnqueueAll(envs) + [EndResult(end)]
  {
    SplitEncoded(envs, [], readMaxBytes);
    assert EncodeAll(envs) + [] == EncodeAll(envs) && envs + [] == envs;
    ReaderEmits(Reader([], chunks, end), envs, [], n);
  }

  lemma SplitOfTail(envs: seq<Envelope>, tail: seq<byte>, readMaxBytes: nat)
    requires forall e :: e in envs ==> |e.data| < TWO_31 && |e.data| <= readMaxBytes
    requires |tail| >= 5 && ReadU32(tail[1..5]) <= readMaxBytes && |tail| < 5 + ReadU32(tail[1..5])
    ensures SplitBytes(EncodeAll(envs) + tail, readMaxBytes) == Split(envs, tail, None)
  {
    SplitEncoded(envs, tail, readMaxBytes);
  }

  /** On a truncated stream they part ways: one raises an error, the other emits a short payload and closes. */
  lemma SplittersDisagreeOnTruncation(chunks: seq<seq<byte>>, envs: seq<Envelope>, tail: seq<byte>, readMaxBytes: nat, n: nat)
    requires Flatten(chunks) == EncodeAll(envs) + tail && n >= |envs| + 2
    requires forall e :: e in envs ==> |e.data| < TWO_31 && |e.data| <= readMaxBytes
    requires IsTail(tail) && |tail| >= 5 && ReadU32(tail[1..5]) <= readMaxBytes
    ensures SplitStream(Flatten(chunks), Done, readMaxBytes) == Stream(envs, Fails(Incomplete(tail)))
    ensures Pulls(Reader([], chunks, Done), n) == EnqueueAll(envs) + [Enqueued(Envelope(tail[0], tail[5..])), Closed]
  {
    SplitOfTail(envs, tail, readMaxBytes);
    ReaderEmits(Reader([], chunks, Done), envs, tail, n);
  }

  // ---- lengths from 2^31 on ----------------------------------------------

  /** A chunk that is one envelope is taken off whole. */
  lemma PullOwnChunk(e: Envelope, chunks: seq<seq<byte>>)
    requires |e.data| < TWO_31
    ensures Pull(Reader([], [Encode(e)] + chunks, Done)) == (Enqueued(e), Reader([], chunks, Done))
  {
    var buffer := Encode(e);
    assert [] + buffer == buffer + [] == buffer && ([buffer] + chunks)[1..] == chunks;
    HeaderOfBuffer(buffer, e, [], []);
    assert Fill(Reader([], [buffer] + chunks, Done)) == Fill(Reader(buffer, chunks, Done)) == Reader(buffer, chunks, Done);
    assert buffer[5..5 + |e.data|] == e.data && buffer[5 + |e.data|..] == [];
  }

  lemma PullsOwnChunk(e: Envelope, chunks: seq<seq<byte>>, n: nat)
    requires |e.data| < TWO_31 && n > 0
    ensures Pulls(Reader([], [Encode(e)] + chunks, Done), n) == [Enqueued(e)] + Pulls(Reader([], chunks, Done), n - 1)
  {
    PullOwnChunk(e, chunks);
  }

  lemma FirstThenRest(envs: seq<Envelope>, x: PullResult, rest: seq<PullResult>)
    requires envs != [] && EnqueueAll(envs[1..]) + [x] <= rest
    ensures EnqueueAll(envs) + [x] <= [Enqueued(envs[0])] + rest
  {
    EnqueueFront(envs, [x]);
  }

  lemma ChunksFront(envs: seq<Envelope>, chunks: seq<seq<byte>>)
    requires envs != []
    ensures Chunks(envs) + chunks == [Encode(envs[0])] + (Chunks(envs[1..]) + chunks)
  {
    assert Chunks(envs) == [Encode(envs[0])] + Chunks(envs[1..]);
  }

  /** Envelopes in chunks of their own come first, and then what a pull makes of the chunks behind them. */
  lemma {:induction false} PullsOwnChunks(envs: seq<Envelope>, chunks: seq<seq<byte>>, x: PullResult, n: nat)
    requires n > |envs| && forall e :: e in envs ==> |e.data| < TWO_31
    requires forall m: nat :: m > 0 ==> [x] <= Pulls(Reader([], chunks, Done), m)
    ensures EnqueueAll(envs) + [x] <= Pulls(Reader([], Chunks(envs) + chunks, Done), n)
    decreases |envs|
  {
    if envs == [] {
      assert Chunks(envs) + chunks == chunks && EnqueueAll(envs) + [x] == [x];
    } else {
      ChunksFront(envs, chunks);
      PullsOwnChunk(envs[0], Chunks(envs[1..]) + chunks, n);
      PullsOwnChunks(envs[1..], chunks, x, n - 1);
      FirstThenRest(envs, x, Pulls(Reader([], Chunks(envs[1..]) + chunks, Done), n - 1));
    }
  }

  /** The five header bytes of a big envelope alone pass for an envelope without payload. */
  lemma PullBigHeader(flags: byte, length: nat, chunks: seq<seq<byte>>)
    requires TWO_31 <= length < TWO_32
    ensures Pull(Reader([], [[flags] + U32(length)] + chunks, Done)).0 == Enqueued(Envelope(flags, []))
  {
    var header := [flags] + U32(length);
    assert [] + header == header && ([header] + chunks)[1..] == chunks;
    assert header[1..5] == U32(length);
    ReadU32OfU32(length);
    SignedLengthIsLength(header[1..5]);
    assert Fill(Reader([], [header] + chunks, Done)) == Fill(Reader(header, chunks, Done)) == Reader(header, chunks, Done);
  }

  /** The chunking that delivers the five header bytes of the big envelope alone. */
  function Cut(before: seq<Envelope>, big: Envelope, after: seq<Envelope>): seq<seq<byte>> {
    Chunks(before) + ([[big.flags] + U32(|big.data|)] + [big.data + EncodeAll(after)])
  }

  lemma FlattenCut(before: seq<Envelope>, header: seq<byte>, payload: seq<byte>)
    ensures Flatten(Chunks(before) + ([header] + [payload])) == EncodeAll(before) + (header + payload)
  {
    FlattenChunks(before);
    FlattenAppend(Chunks(before), [header] + [payload]);
    FlattenAppend([header], [payload]);
  }

  lemma CutIsChunking(before: seq<Envelope>, big: Envelope, after: seq<Envelope>)
    ensures Flatten(Cut(before, big, after)) == EncodeAll(before + [big] + after)
  {
    var header := [big.flags] + U32(|big.data|);
    FlattenCut(before, header, big.data + EncodeAll(after));
    ConcatAssociates(header, big.data, EncodeAll(after));
    ConcatAssociates(EncodeAll(before), Encode(big), EncodeAll(after));
    EncodeAllParts(before, big, after);
  }

  /** There the big envelope comes out without its payload, behind all envelopes before it. */
  lemma CutLosesPayload(before: seq<Envelope>, big: Envelope, after: seq<Envelope>, n: nat)
    requires (forall e :: e in before ==> |e.data| < TWO_31) && TWO_31 <= |big.data| < TWO_32 && n > |before|
    ensures EnqueueAll(before) + [Enqueued(Envelope(big.flags, []))] <= Pulls(Reader([], Cut(before, big, after), Done), n)
  {
    var payload := [big.data + EncodeAll(after)];
    var chunks := [[big.flags] + U32(|big.data|)] + payload;
    PullBigHeader(big.flags, |big.data|, payload);
    PullsOwnChunks(before, chunks, Enqueued(Envelope(big.flags, [])), n);
  }

  /** What the reader should do with complete envelopes: the same for every chunking of their bytes. */
  ghost predicate EmitsWhole(envs: seq<Envelope>, chunks: seq<seq<byte>>, n: nat) {
    Pulls(Reader([], chunks, Done), n) == EnqueueAll(envs) + [Closed]
  }

  lemma {:induction false} FirstBig(envs: seq<Envelope>) returns (k: nat)
    requires exists e :: e in envs && |e.data| >= TWO_31
    ensures k < |envs| && |envs[k].data| >= TWO_31 && forall e :: e in envs[..k] ==> |e.data| < TWO_31
  {
    if |envs[0].data| >= TWO_31 {
      k := 0;
    } else {
      k := FirstBig(envs[1..]);
      k := k + 1;
      assert envs[..k] == [envs[0]] + envs[1..][..k - 1];
    }
  }

  /** The reader emits complete envelopes from every chunking of their bytes if and only if all lengths are below
      2^31: from there on, what it emits depends on the chunking. */
  lemma {:induction false} SignedLengthBreaksChunking(envs: seq<Envelope>)
    requires forall e :: e in envs ==> |e.data| < TWO_32
    ensures
      (forall chunks: seq<seq<byte>>, n: nat :: Flatten(chunks) == EncodeAll(envs) && n >= |envs| + 2 ==> EmitsWhole(envs, chunks, n))
      <==> forall e :: e in envs ==> |e.data| < TWO_31
  {
    if forall e :: e in envs ==> |e.data| < TWO_31 {
      forall chunks: seq<seq<byte>>, n: nat | Flatten(chunks) == EncodeAll(envs) && n >= |envs| + 2 ensures EmitsWhole(envs, chunks, n) {
        assert EncodeAll(envs) + [] == EncodeAll(envs);
        ReaderEmits(Reader([], chunks, Done), envs, [], n);
      }
    } else {
      var k := FirstBig(envs);
      NotWhole(envs, k);
    }
  }

  lemma {:induction false} NotWhole(envs: seq<Envelope>, k: nat)
    requires k < |envs| && TWO_31 <= |envs[k].data| < TWO_32 && forall e :: e in envs[..k] ==> |e.data| < TWO_31
    ensures exists chunks: seq<seq<byte>>, n: nat :: Flatten(chunks) == EncodeAll(envs) && n >= |envs| + 2 && !EmitsWhole(envs, chunks, n)
  {
    var before, big, after := envs[..k], envs[k], envs[k + 1..];
    assert before + [big] + after == envs;
    CutIsChunking(before, big, after);
    CutLosesPayload(before, big, after, |envs| + 2);
    var lost := EnqueueAll(before) + [Enqueued(Envelope(big.flags, []))];
    assert lost[k] == Enqueued(Envelope(big.flags, [])) && (EnqueueAll(envs) + [Closed])[k] == Enqueued(big);
    assert !EmitsWhole(envs, Cut(before, big, after), |envs| + 2);
  }

  // ---- the reader --------------------------------------------------------

  lemma PrefixKept(a: seq<byte>, b: seq<byte>)
    requires |a| >= 5
    ensures (a + b)[1..5] == a[1..5] && (a + b)[0] == a[0]
  {
  }

  /** The loop that shifts the four length bytes in. */
  method ReadLength(buffer: seq<byte>) returns (length: int)
    requires |buffer| >= 5
    ensures length == SignedLength(buffer[1..5])
  {
    length := 0;
    for i := 1 to 5
      invariant length == Accumulated(buffer[1..i])
    {
      AccumulateStep(buffer[1..], i - 1);
      assert buffer[1..][..i] == buffer[1..i + 1] && buffer[1..][..i - 1] == buffer[1..i];
      length := Accumulate(length, buffer[i]);
    }
  }

  class EnvelopeReadableStream {
    var buffer: seq<byte>
    var source: seq<seq<byte>>
    const end: Ending

    function State(): Reader
      reads this
    {
      Reader(buffer, source, end)
    }

    constructor (chunks: seq<seq<byte>>, end: Ending)
      ensures State() == Reader([], chunks, end)
    {
      buffer, source, this.end := [], chunks, end;
    }

    method PullEnvelope() returns (result: PullResult)
      modifies this
      ensures (result, State()) == Pull(old(State()))
    {
      var header: Option<(int, byte)> := None;
      while true
        invariant Fill(State()) == Fill(old(State()))
        invariant header.Some? ==> |buffer| >= 5 && header.value == (SignedLength(buffer[1..5]), buffer[0])
        decreases |source|
      {
        if header.None? && |buffer| >= 5 {
          var length := ReadLength(buffer);
          header := Some((length, buffer[0]));
        }
        if header.Some? && |buffer| >= header.value.0 + 5 {
          break;
        }
        if source == [] {
          if end.Fails? {
            return Errored(end.reason);
          }
          break;
        }
        if |buffer| >= 5 {
          PrefixKept(buffer, source[0]);
        }
        buffer, source := buffer + source[0], source[1..];
      }
      if header.None? {
        return if |buffer| == 0 then Closed else Errored(PREMATURE_END);
      }
      var (length, flags) := header.value;
      var data := Subarray(buffer, 5, 5 + length);
      buffer := Subarray(buffer, 5 + length, |buffer|);
      return Enqueued(Envelope(flags, data));
    }
  }
}
