/** Enveloped messages: one byte of flags, four bytes of big-endian length, and the payload
    (Connect Protocol reference, "Streaming RPCs"; PROTOCOL-HTTP2.md of gRPC, Length-Prefixed-Message). */
module Envelopes {
  import opened Base
  import opened Http

  const TWO_8: nat := 0x100
  const TWO_16: nat := 0x1_0000
  const TWO_24: nat := 0x100_0000
  const TWO_31: nat := 0x8000_0000
  const TWO_32: nat := 0x1_0000_0000

  datatype Envelope = Envelope(flags: byte, data: seq<byte>)

  datatype Header = Header(length: nat, flags: byte)

  // ---- 32-bit lengths ----------------------------------------------------

  /** The bytes that DataView.setUint32 writes: the value modulo 2^32, most significant byte first. */
  function U32(n: nat): (r: seq<byte>)
    ensures |r| == 4
  {
    [n / TWO_24 % TWO_8, n / TWO_16 % TWO_8, n / TWO_8 % TWO_8, n % TWO_8]
  }

  /** The value that DataView.getUint32 reads. */
  function ReadU32(b: seq<byte>): nat
    requires |b| == 4
  {
    ((b[0] * TWO_8 + b[1]) * TWO_8 + b[2]) * TWO_8 + b[3]
  }

  /** Reading back a length loses exactly its bits above the 32nd. */
  lemma ReadU32OfU32(n: nat)
    ensures ReadU32(U32(n)) == n % TWO_32
    ensures ReadU32(U32(n)) == n <==> n < TWO_32
  {
    assert n / TWO_16 == n / TWO_8 / TWO_8;
    assert n / TWO_24 == n / TWO_16 / TWO_8;
    assert n / TWO_32 == n / TWO_24 / TWO_8;
  }

  lemma U32OfReadU32(b: seq<byte>)
    requires |b| == 4
    ensures ReadU32(b) < TWO_32 && U32(ReadU32(b)) == b
  {
    var n := ReadU32(b);
    assert n / TWO_8 == (b[0] * TWO_8 + b[1]) * TWO_8 + b[2];
    assert n / TWO_16 == n / TWO_8 / TWO_8 == b[0] * TWO_8 + b[1];
    assert n / TWO_24 == n / TWO_16 / TWO_8 == b[0];
  }

  // ---- encoding ----------------------------------------------------------

  function Encode(e: Envelope): seq<byte> {
    [e.flags] + U32(|e.data|) + e.data
  }

  /** The layout: the flags, the length in four bytes, of which the first weighs most, and the payload. */
  lemma EncodingLayout(e: Envelope)
    requires |e.data| < TWO_32
    ensures
      var bytes := Encode(e);
      && |bytes| == 5 + |e.data| && bytes[0] == e.flags && bytes[5..] == e.data
      && bytes[1] as int * 0x100_0000 + bytes[2] as int * 0x1_0000 + bytes[3] as int * 0x100 + bytes[4] as int == |e.data|
  {
    ReadU32OfU32(|e.data|);
  }

  function EncodeAll(envs: seq<Envelope>): seq<byte> {
    if envs == [] then [] else Encode(envs[0]) + EncodeAll(envs[1..])
  }

  lemma {:induction false} EncodeAllAppend(a: seq<Envelope>, b: seq<Envelope>)
    ensures EncodeAll(a + b) == EncodeAll(a) + EncodeAll(b)
  {
    if a == [] {
      assert a + b == b;
    } else {
      EncodeAllAppend(a[1..], b);
      assert (a + b)[0] == a[0] && (a + b)[1..] == a[1..] + b;
      ConcatAssociates(Encode(a[0]), EncodeAll(a[1..]), EncodeAll(b));
    }
  }

  lemma EncodeAllSnoc(a: seq<Envelope>, e: Envelope)
    ensures EncodeAll(a + [e]) == EncodeAll(a) + Encode(e)
  {
    EncodeAllAppend(a, [e]);
    assert EncodeAll([e]) == Encode(e) + EncodeAll([]);
  }

  lemma EncodeAllParts(before: seq<Envelope>, e: Envelope, after: seq<Envelope>)
    ensures EncodeAll(before + [e] + after) == EncodeAll(before) + Encode(e) + EncodeAll(after)
  {
    EncodeAllSnoc(before, e);
    EncodeAllAppend(before + [e], after);
  }

  /** Every envelope in a chunk of its own. */
  function Chunks(envs: seq<Envelope>): (r: seq<seq<byte>>)
    ensures |r| == |envs| && forall i :: 0 <= i < |r| ==> r[i] == Encode(envs[i])
  {
    seq(|envs|, i requires 0 <= i < |envs| => Encode(envs[i]))
  }

  lemma {:induction false} FlattenChunks(envs: seq<Envelope>)
    ensures Flatten(Chunks(envs)) == EncodeAll(envs)
  {
    if envs != [] {
      FlattenChunks(envs[1..]);
      assert Chunks(envs)[1..] == Chunks(envs[1..]);
    }
  }

  /** Writes `data` into a typed array at `offset`. */
  method SetBytes(bytes: array<byte>, offset: nat, data: seq<byte>)
    requires offset + |data| <= bytes.Length
    modifies bytes
    ensures bytes[..] == old(bytes[..offset]) + data + old(bytes[offset + |data|..])
  {
    for i := 0 to |data|
      invariant bytes[..] == old(bytes[..offset]) + data[..i] + old(bytes[offset + i..])
    {
      bytes[offset + i] := data[i];
    }
  }

  /** Writes the five header bytes and the payload of one envelope at `offset`. */
  method WriteEnvelope(bytes: array<byte>, offset: nat, e: Envelope)
    requires offset + 5 + |e.data| <= bytes.Length
    modifies bytes
    ensures bytes[..offset] == old(bytes[..offset])
    ensures bytes[offset..offset + 5 + |e.data|] == Encode(e)
  {
    SetBytes(bytes, offset, [e.flags]);
    SetBytes(bytes, offset + 1, U32(|e.data|));
    SetBytes(bytes, offset + 5, e.data);
  }

  method EncodeEnvelope(flags: byte, data: seq<byte>) returns (bytes: array<byte>)
    ensures fresh(bytes) && bytes[..] == Encode(Envelope(flags, data))
  {
    bytes := new byte[|data| + 5];
    WriteEnvelope(bytes, 0, Envelope(flags, data));
    assert bytes[..] == bytes[0..5 + |data|];
  }

  /** The envelopes before position `i + 1` end where the envelope at `i` does, inside the encoding of all. */
  lemma EncodeAllPrefix(envs: seq<Envelope>, i: nat)
    requires i < |envs|
    ensures EncodeAll(envs[..i + 1]) == EncodeAll(envs[..i]) + Encode(envs[i])
    ensures |EncodeAll(envs[..i + 1])| <= |EncodeAll(envs)|
  {
    EncodeAllSnoc(envs[..i], envs[i]);
    assert envs[..i] + [envs[i]] == envs[..i + 1];
    EncodeAllAppend(envs[..i + 1], envs[i + 1..]);
    assert envs[..i + 1] + envs[i + 1..] == envs;
  }

  method SizeOfEnvelopes(envelopes: seq<Envelope>) returns (len: nat)
    ensures len == |EncodeAll(envelopes)|
  {
    len := 0;
    for i := 0 to |envelopes|
      invariant len == |EncodeAll(envelopes[..i])|
    {
      EncodeAllPrefix(envelopes, i);
      len := len + |envelopes[i].data| + 5;
    }
    assert envelopes[..|envelopes|] == envelopes;
  }

  /** One buffer for all envelopes, filled in place. */
  method EncodeEnvelopes(envelopes: seq<Envelope>) returns (bytes: array<byte>)
    ensures fresh(bytes) && bytes[..] == EncodeAll(envelopes)
  {
    var len := SizeOfEnvelopes(envelopes);
    bytes := new byte[len];
    var offset := 0;
    for i := 0 to |envelopes|
      invariant offset == |EncodeAll(envelopes[..i])| <= bytes.Length
      invariant bytes[..offset] == EncodeAll(envelopes[..i])
    {
      EncodeAllPrefix(envelopes, i);
      var end := offset + 5 + |envelopes[i].data|;
      WriteEnvelope(bytes, offset, envelopes[i]);
      assert bytes[..end] == bytes[..offset] + bytes[offset..end];
      offset := end;
    }
    assert envelopes[..|envelopes|] == envelopes;
    assert bytes[..] == bytes[..offset];
  }

  // ---- compression -------------------------------------------------------

  /** Bit 0 of the flags: the payload is compressed. */
  const COMPRESSED_FLAG: byte := 0x01

  /** A flag is a single bit. */
  predicate IsFlag(flag: byte) {
    flag in {1, 2, 4, 8, 16, 32, 64, 128}
  }

  /** `(flags & flag) === flag` for a single bit. */
  predicate HasFlag(flags: byte, flag: byte)
    requires IsFlag(flag)
  {
    flags / flag % 2 == 1
  }

  /** `flags | compressedFlag` */
  function SetCompressed(flags: byte): byte {
    if flags % 2 == 1 then flags else flags + 1
  }

  /** `flags ^ compressedFlag` */
  function FlipCompressed(flags: byte): byte {
    if flags % 2 == 1 then flags - 1 else flags + 1
  }

  /** A flag is set if its bit is, whatever bits are above and below. */
  lemma FlagIsBit(flags: byte, flag: byte, above: nat, bit: nat, below: nat)
    requires IsFlag(flag) && below < flag && bit < 2 && flags == above * (2 * flag) + bit * flag + below
    ensures HasFlag(flags, flag) <==> bit == 1
  {
    assert flags / flag == 2 * above + bit;
  }

  /** The compression bit never disturbs another flag. */
  lemma CompressedBitIsIndependent(flags: byte, flag: byte)
    requires IsFlag(flag) && flag != COMPRESSED_FLAG
    ensures HasFlag(SetCompressed(flags), flag) == HasFlag(flags, flag) == HasFlag(FlipCompressed(flags), flag)
    ensures HasFlag(SetCompressed(flags), COMPRESSED_FLAG)
    ensures HasFlag(FlipCompressed(flags), COMPRESSED_FLAG) != HasFlag(flags, COMPRESSED_FLAG)
  {
    HalvesDecide(flags, flag);
    HalvesDecide(SetCompressed(flags), flag);
    HalvesDecide(FlipCompressed(flags), flag);
  }

  lemma HalvesDecide(flags: byte, flag: byte)
    requires IsFlag(flag) && flag != COMPRESSED_FLAG
    ensures flags / flag == flags / 2 / (flag / 2)
  {
  }

  /** A compression algorithm. Decompression is given readMaxBytes, and may raise an error. */
  datatype Compression = Compression(
    name: string,
    compress: seq<byte> -> seq<byte>,
    decompress: (seq<byte>, nat) -> Result<seq<byte>, Thrown>)

  /** The flag tells whether the payload was compressed; otherwise the envelope is left as it is. */
  function EnvelopeCompress(e: Envelope, compression: Option<Compression>, compressMinBytes: nat)
    : (r: Result<Envelope, Thrown>)
    ensures r.Ok? ==> (HasFlag(r.value.flags, COMPRESSED_FLAG) <==> compression.Some? && |e.data| >= compressMinBytes)
    ensures r.Ok? && !HasFlag(r.value.flags, COMPRESSED_FLAG) ==> r.value == e
    ensures r.Ok? && HasFlag(r.value.flags, COMPRESSED_FLAG) ==> r.value.data == compression.value.compress(e.data)
    ensures r.Err? <==> HasFlag(e.flags, COMPRESSED_FLAG)
    ensures r.Err? ==> r.error.Raised? && r.error.error.code == 13
  {
    if HasFlag(e.flags, COMPRESSED_FLAG) then Err(Failure(INTERNAL, "invalid envelope, already compressed"))
    else if compression.Some? && |e.data| >= compressMinBytes then
      Ok(Envelope(SetCompressed(e.flags), compression.value.compress(e.data)))
    else Ok(e)
  }

  /** Nothing compressed comes out, and nothing uncompressed is touched. */
  function EnvelopeDecompress(e: Envelope, compression: Option<Compression>, readMaxBytes: nat)
    : (r: Result<Envelope, Thrown>)
    ensures r.Ok? ==> !HasFlag(r.value.flags, COMPRESSED_FLAG)
    ensures !HasFlag(e.flags, COMPRESSED_FLAG) ==> r == Ok(e)
    ensures HasFlag(e.flags, COMPRESSED_FLAG) && compression.None? ==>
      r.Err? && r.error.Raised? && r.error.error.code == 3
    ensures HasFlag(e.flags, COMPRESSED_FLAG) && compression.Some? && compression.value.decompress(e.data, readMaxBytes).Err? ==>
      r == Err(compression.value.decompress(e.data, readMaxBytes).error)
  {
    if HasFlag(e.flags, COMPRESSED_FLAG) then
      if compression.None? then
        Err(Failure(INVALID_ARGUMENT, "received compressed envelope, but do not know how to decompress"))
      else
        match compression.value.decompress(e.data, readMaxBytes)
        case Ok(data) => Ok(Envelope(FlipCompressed(e.flags), data))
        case Err(reason) => Err(reason)
    else Ok(e)
  }

  /** What a compression promises: decompressing within the limit gives back what was compressed. */
  ghost predicate Lossless(c: Compression, readMaxBytes: nat) {
    forall data :: |data| <= readMaxBytes ==> c.decompress(c.compress(data), readMaxBytes) == Ok(data)
  }

  /** Decompression undoes compression, whether or not the threshold was met, and every flag survives. */
  lemma DecompressUndoesCompress(e: Envelope, compression: Option<Compression>, compressMinBytes: nat, readMaxBytes: nat)
    requires !HasFlag(e.flags, COMPRESSED_FLAG) && |e.data| <= readMaxBytes
    requires compression.Some? ==> Lossless(compression.value, readMaxBytes)
    ensures EnvelopeCompress(e, compression, compressMinBytes).Ok?
    ensures EnvelopeDecompress(EnvelopeCompress(e, compression, compressMinBytes).value, compression, readMaxBytes) == Ok(e)
  {
  }
}
