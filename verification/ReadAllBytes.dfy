/** readAllBytes: collects a stream of chunks, with or without a promise of their total length. */
module ReadAllBytes {
  import opened Base
  import opened Js
  import opened Http
  import opened Envelopes
  import opened SplitEnvelope

  const MAX_SAFE_INTEGER := 0x1F_FFFF_FFFF_FFFF

  /** The lengthHint argument: missing, a header value, or a number, which may be no integer at all. */
  datatype LengthHint = Missing | Text(text: string) | Integer(n: int) | NoInteger

  /** The promised length; None when the hint is to be ignored. */
  function ParseLengthHint(hint: LengthHint): (r: Option<nat>)
    ensures r.Some? ==> r.value <= MAX_SAFE_INTEGER
  {
    var n := match hint
      case Missing => None
      case Text(s) => ParseInt(s)
      case Integer(n) => Some(n)
      case NoInteger => None;
    if n.None? || n.value > MAX_SAFE_INTEGER || n.value < 0 then None else Some(n.value)
  }

  /** A decimal Content-Length is honored exactly up to the largest safe integer. */
  lemma HintOfDecimal(n: nat)
    ensures ParseLengthHint(Text(NatToString(n))) == if n <= MAX_SAFE_INTEGER then Some(n) else None
  {
    ParseIntNat(n);
  }

  /** A number is honored exactly if it is an integer, not negative, and not above 2^53 - 1; a text, if it starts with one. */
  lemma HintIsHonored(n: int, text: string)
    ensures ParseLengthHint(Missing) == ParseLengthHint(NoInteger) == None
    ensures ParseLengthHint(Integer(n)) == if 0 <= n < 0x20_0000_0000_0000 then Some(n) else None
    ensures text == [] || !(IsSpace(text[0]) || IsDigit(text[0]) || text[0] in {'+', '-'}) ==> ParseLengthHint(Text(text)) == None
  {
  }

  ghost predicate RaisesCode(r: Result<seq<byte>, Thrown>, code: int) {
    r.Err? && r.error.Raised? && r.error.error.code == code
  }

  /** The result of reading a source: for which sources it succeeds, with what, and how it fails otherwise. */
  ghost predicate Delivers(source: Stream<seq<byte>>, readMaxBytes: nat, hint: Option<nat>, r: Result<seq<byte>, Thrown>) {
    var all := Flatten(source.items);
    match hint
    case Some(promised) =>
      if promised > readMaxBytes then RaisesCode(r, RESOURCE_EXHAUSTED)
      else if |all| > promised then RaisesCode(r, INVALID_ARGUMENT)
      else if source.end.Fails? then r == Err(source.end.reason)
      else if |all| < promised then RaisesCode(r, INVALID_ARGUMENT)
      else r == Ok(all)
    case None =>
      if |all| > readMaxBytes then RaisesCode(r, RESOURCE_EXHAUSTED)
      else if source.end.Fails? then r == Err(source.end.reason)
      else r == Ok(all)
  }

  /** A promise kept changes nothing: same bytes, same success, same error or error code. */
  lemma CorrectHintRefines(source: Stream<seq<byte>>, readMaxBytes: nat, hinted: Result<seq<byte>, Thrown>, plain: Result<seq<byte>, Thrown>)
    requires Delivers(source, readMaxBytes, Some(|Flatten(source.items)|), hinted)
    requires Delivers(source, readMaxBytes, None, plain)
    ensures hinted == plain || (RaisesCode(hinted, RESOURCE_EXHAUSTED) && RaisesCode(plain, RESOURCE_EXHAUSTED))
    ensures hinted.Ok? <==> source.end.Done? && |Flatten(source.items)| <= readMaxBytes
  {
  }

  /** A valid hint that is not the total length always fails; a valid hint never makes a failing read succeed. */
  lemma WrongHintFails(source: Stream<seq<byte>>, readMaxBytes: nat, promised: nat, hinted: Result<seq<byte>, Thrown>, plain: Result<seq<byte>, Thrown>)
    requires Delivers(source, readMaxBytes, Some(promised), hinted)
    requires Delivers(source, readMaxBytes, None, plain)
    ensures hinted.Ok? <==> plain.Ok? && promised == |Flatten(source.items)|
    ensures hinted.Ok? ==> hinted == plain
  {
  }

  lemma FlattenPrefix<T>(chunks: seq<seq<T>>, i: nat)
    requires i < |chunks|
    ensures Flatten(chunks[..i + 1]) == Flatten(chunks[..i]) + chunks[i]
    ensures |Flatten(chunks[..i + 1])| <= |Flatten(chunks)|
  {
    FlattenSnoc(chunks[..i], chunks[i]);
    assert chunks[..i + 1] == chunks[..i] + [chunks[i]];
    FlattenAppend(chunks[..i + 1], chunks[i + 1..]);
    assert chunks == chunks[..i + 1] + chunks[i + 1..];
  }

  function BytesPromised(promised: nat, received: nat): Thrown {
    Failure(INVALID_ARGUMENT, "protocol error: promised " + NatToString(promised)
      + " bytes, received " + NatToString(received))
  }

  method ReadAllBytes(source: Stream<seq<byte>>, readMaxBytes: nat, lengthHint: LengthHint)
    returns (r: Result<seq<byte>, Thrown>)
    ensures Delivers(source, readMaxBytes, ParseLengthHint(lengthHint), r)
  {
    var hint := ParseLengthHint(lengthHint);
    if hint.Some? {
      r := ReadPromised(source, readMaxBytes, hint.value);
    } else {
      r := ReadUnpromised(source, readMaxBytes);
    }
  }

  /** Fills a buffer of the promised length in place. */
  method ReadPromised(source: Stream<seq<byte>>, readMaxBytes: nat, hint: nat) returns (r: Result<seq<byte>, Thrown>)
    ensures Delivers(source, readMaxBytes, Some(hint), r)
  {
    if hint > readMaxBytes {
      return Err(Oversize(hint, readMaxBytes));
    }
    var buffer := new byte[hint];
    var offset := 0;
    for i := 0 to |source.items|
      invariant offset == |Flatten(source.items[..i])| <= hint
      invariant buffer[..offset] == Flatten(source.items[..i])
    {
      var chunk := source.items[i];
      FlattenPrefix(source.items, i);
      if offset + |chunk| > hint {
        return Err(BytesPromised(hint, offset + |chunk|));
      }
      SetBytes(buffer, offset, chunk);
      offset := offset + |chunk|;
    }
    assert source.items[..|source.items|] == source.items;
    if source.end.Fails? {
      return Err(source.end.reason);
    }
    if offset < hint {
      return Err(BytesPromised(hint, offset));
    }
    assert buffer[..offset] == buffer[..];
    return Ok(buffer[..]);
  }

  /** Collects the chunks, and then copies them into a buffer of their total length. */
  method ReadUnpromised(source: Stream<seq<byte>>, readMaxBytes: nat) returns (r: Result<seq<byte>, Thrown>)
    ensures Delivers(source, readMaxBytes, None, r)
  {
    var chunks: seq<seq<byte>> := [];
    var count := 0;
    for i := 0 to |source.items|
      invariant chunks == source.items[..i]
      invariant count == |Flatten(source.items[..i])| <= readMaxBytes
    {
      FlattenPrefix(source.items, i);
      count := count + |source.items[i]|;
      if count > readMaxBytes {
        return Err(Failure(RESOURCE_EXHAUSTED,
                           "message size is larger than configured readMaxBytes " + NatToString(readMaxBytes)));
      }
      chunks := chunks + [source.items[i]];
    }
    assert source.items[..|source.items|] == source.items;
    if source.end.Fails? {
      return Err(source.end.reason);
    }
    var all := Concatenate(chunks, count);
    return Ok(all[..]);
  }

  /** Shifts chunk after chunk off the list, copying each behind the one before. */
  method Concatenate(list: seq<seq<byte>>, count: nat) returns (all: array<byte>)
    requires count == |Flatten(list)|
    ensures all[..] == Flatten(list)
  {
    var chunks := list;
    all := new byte[count];
    var offset: nat := 0;
    while chunks != []
      invariant all.Length == count && offset + |Flatten(chunks)| == count
      invariant all[..offset] + Flatten(chunks) == Flatten(list)
      decreases |chunks|
    {
      var chunk := chunks[0];
      ConcatAssociates(all[..offset], chunk, Flatten(chunks[1..]));
      ghost var before := all[..offset];
      SetBytes(all, offset, chunk);
      assert all[..offset + |chunk|] == before + chunk;
      offset := offset + |chunk|;
      chunks := chunks[1..];
    }
    assert Flatten(chunks) == [] && all[..offset] == all[..];
  }
}
