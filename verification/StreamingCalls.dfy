/** Streaming calls of the Connect and the gRPC-web protocol, from the handler's pipeline to the transport's sink. */
module StreamingCalls {
  import opened Base
  import opened Http
  import opened Envelopes
  import opened EndStreams
  import opened Trailers
  import opened Pipeline
  import opened Sinks
  import opened EndToEnd

  /** The error a handler reports for what its implementation threw. The value undefined counts as no error. */
  function ErrorOf(reason: Thrown): Option<ConnectError> {
    match reason
    case Undefined => None
    case Raised(e) => Some(e)
    case Foreign(_) => Some(ConnectError(INTERNAL, "internal error", map[], []))
  }

  /** An order for every Headers object. */
  ghost predicate Ordering(orderOf: Headers -> seq<string>) {
    forall h: Headers :: Enumerates(orderOf(h), h)
  }

  /** The application gets an error with this code, this message, and these details in this order. */
  predicate IsFailure(end: Ending, code: int, message: string, details: seq<Detail>) {
    end.Fails? && end.reason.Raised? &&
    var e := end.reason.error;
    && e.code == code && e.message == message && |e.details| == |details|
    && forall i :: 0 <= i < |details| ==> e.details[i].typeName == details[i].typeName && e.details[i].payload == details[i].payload
  }

  lemma ConsumeWhole<M, E>(outputs: seq<M>, end: E, rules: EndRules<E>)
    ensures Consume(Stream(ParsedAll(outputs, end), Done), rules)
         == match rules.error(end)
            case None => Received(outputs, Copy(rules.metadata(end)), Done)
            case Some(reason) => Received(outputs, map[], Fails(reason))
  {
  }

  // ---- Connect -----------------------------------------------------------

  const CONNECT_RULES: EndRules<EndStream> := EndRules(
    (e: EndStream) => (match e.error case Some(error) => Some(Raised(error)) case None => None),
    (e: EndStream) => e.metadata,
    "received extra EndStreamResponse", "received extra message after EndStreamResponse", "missing EndStreamResponse")

  /** The handler's end-of-stream callback. */
  function ConnectFinally(trailer: Headers, ends: Serialization<EndStream>): Finally<Envelope> {
    reason =>
      match ends.serialize(EndStream(trailer, ErrorOf(reason)))
      case Ok(data) => Ok(Some(Envelope(END_STREAM_FLAG, data)))
      case Err(raised) => Err(raised)
  }

  /** The envelope the callback makes. */
  function ConnectEnd(trailer: Headers, error: Option<ConnectError>, text: JsonText, b64: Base64, orderOf: Headers -> seq<string>): Envelope
    requires forall h: Headers, k :: k in orderOf(h) ==> k in h
  {
    Envelope(END_STREAM_FLAG, text.write(EndStreamToJson(trailer, error, orderOf(Merged(trailer, error)), b64)))
  }

  /** What a client throws instead of an error that does not survive the JSON form. */
  const LOST_ERROR := Failure(INVALID_ARGUMENT,
    "failed to parse EndStreamResponse: " + ErrorText(Raised(PARSE_ERROR)))

  /** What parsing the end of a stream comes to. */
  function ConnectEndParsed(trailer: Headers, error: Option<ConnectError>): Result<EndStream, Thrown> {
    if error.Some? && !ErrorSurvives(error.value) then Err(LOST_ERROR) else EndStreamReceived(trailer, error)
  }

  lemma ParseConnectEnd(trailer: Headers, error: Option<ConnectError>, text: JsonText, b64: Base64,
                        orderOf: Headers -> seq<string>)
    requires text.Lawful() && b64.Lawful() && Ordering(orderOf) && WellFormed(Merged(trailer, error))
    requires error.Some? ==> DebugsAreValues(error.value.details)
    ensures
      var data := ConnectEnd(trailer, error, text, b64, orderOf).data;
      EndStreamSerialization(text, b64, orderOf).parse(data) == ConnectEndParsed(trailer, error)
  {
    var order := orderOf(Merged(trailer, error));
    EndStreamRoundTrip(trailer, error, order, b64);
    EndStreamIsValue(trailer, error, order, b64);
  }

  lemma EndFlags()
    ensures HasFlag(END_STREAM_FLAG, END_STREAM_FLAG) && !HasFlag(END_STREAM_FLAG, COMPRESSED_FLAG)
    ensures HasFlag(TRAILER_FLAG, TRAILER_FLAG) && !HasFlag(TRAILER_FLAG, COMPRESSED_FLAG)
  {
  }

  lemma NormalizeIdempotent(h: Headers)
    ensures Copy(MetadataReceived(h)) == MetadataReceived(h)
  {
  }

  /** Connect streaming, end to end: if every payload fits, the client yields exactly the messages that the handler
      produced and could serialize, in order, and then finishes with the server's trailers, or throws the
      server's error; a handler's foreign exception arrives as Internal, and a thrown undefined as no error. */
  lemma ConnectEndToEnd<M(!new)>(call: Call<M, EndStream>, outputs: Stream<M>, trailer: Headers,
                                 text: JsonText, b64: Base64, orderOf: Headers -> seq<string>, chunks: seq<seq<byte>>)
    requires text.Lawful() && b64.Lawful() && Ordering(orderOf)
    requires call.Valid() && Faithful(call.messages, outputs.items, call.readMaxBytes)
    requires call.endFlag == END_STREAM_FLAG && call.ends == EndStreamSerialization(text, b64, orderOf)
    requires
      var error := ErrorOf(Caught(call.Sent(outputs).end));
      && WellFormed(Merged(trailer, error)) && (error.Some? ==> DebugsAreValues(error.value.details))
      && forall e :: e in call.Sent(outputs).items + [ConnectEnd(trailer, error, text, b64, orderOf)] ==> Fits(call, e)
    requires Flatten(chunks) == Flatten(call.Server(outputs, ConnectFinally(trailer, call.ends)).items)
    ensures
      var error := ErrorOf(Caught(call.Sent(outputs).end));
      var messages := outputs.items[..|call.Sent(outputs).items|];
      var metadata := MetadataReceived(Merged(trailer, error));
      Consume(call.Client(Flatten(chunks)), CONNECT_RULES)
        == match error
           case None => Received(messages, metadata, Done)
           case Some(e) => Received(messages, map[],
             Fails(if ErrorSurvives(e) then Raised(ErrorReceived(e, metadata)) else LOST_ERROR))
  {
    var error := ErrorOf(Caught(call.Sent(outputs).end));
    var messages := outputs.items[..|call.Sent(outputs).items|];
    var end := ConnectEnd(trailer, error, text, b64, orderOf);
    EndFlags();
    ParseConnectEnd(trailer, error, text, b64, orderOf);
    if error.Some? && !ErrorSurvives(error.value) {
      DeliveryWithBadEnd(call, outputs, ConnectFinally(trailer, call.ends), end, LOST_ERROR, chunks);
      ConsumeMessages<M, EndStream>(messages, LOST_ERROR, CONNECT_RULES);
    } else {
      var value := EndStreamReceived(trailer, error).value;
      Delivery(call, outputs, ConnectFinally(trailer, call.ends), end, value, chunks);
      ConsumeWhole(messages, value, CONNECT_RULES);
      NormalizeIdempotent(Merged(trailer, error));
    }
  }

  /** A call in which every payload fits: `last` is the envelope that the handler appends to its messages. */
  ghost predicate ConnectCall<M(!new)>(call: Call<M, EndStream>, outputs: Stream<M>, trailer: Headers, text: JsonText, b64: Base64,
                                       orderOf: Headers -> seq<string>, last: Envelope, chunks: seq<seq<byte>>) {
    var sent := call.Sent(outputs);
    && text.Lawful() && b64.Lawful() && Ordering(orderOf) && WellFormed(trailer)
    && call.Valid() && Faithful(call.messages, outputs.items, call.readMaxBytes)
    && call.endFlag == END_STREAM_FLAG && call.ends == EndStreamSerialization(text, b64, orderOf)
    && ConnectFinally(trailer, call.ends)(Caught(sent.end)) == Ok(Some(last))
    && (forall e :: e in sent.items + [last] ==> Fits(call, e))
    && (sent.end.Fails? && sent.end.reason.Raised? ==>
          WellFormed(sent.end.reason.error.metadata) && DebugsAreValues(sent.end.reason.error.details))
    && Flatten(chunks) == Flatten(call.Server(outputs, ConnectFinally(trailer, call.ends)).items)
  }

  /** How a client's iteration ends, by how the handler's ended. */
  ghost predicate ConnectArrives(handler: Ending, client: Ending) {
    match handler
    case Done => client == Done
    case Fails(Undefined) => client == Done
    case Fails(Foreign(_)) => IsFailure(client, 13, "internal error", [])
    case Fails(Raised(e)) =>
      if 1 <= e.code <= 16 && forall d :: d in e.details ==> DebugSurvives(d) then IsFailure(client, e.code, e.message, e.details)
      else client.Fails? && client.reason.Raised? && client.reason.error.code == 3
  }

  /** Connect streaming, by how the handler ended. The application gets all messages, in order. If the handler ended normally,
      or threw undefined, it then gets the trailers; any other value that is no ConnectError arrives as an Internal error
      (code 13) that tells nothing; and a ConnectError with its code, message and details if its code is one of the enum and
      its debug values survive, and otherwise as an InvalidArgument error (3). */
  lemma ConnectOutcome<M(!new)>(call: Call<M, EndStream>, outputs: Stream<M>, trailer: Headers, text: JsonText, b64: Base64,
                                orderOf: Headers -> seq<string>, last: Envelope, chunks: seq<seq<byte>>)
    requires ConnectCall(call, outputs, trailer, text, b64, orderOf, last, chunks)
    ensures
      var sent := call.Sent(outputs);
      var r := Consume(call.Client(Flatten(chunks)), CONNECT_RULES);
      && |sent.items| <= |outputs.items| && r.messages == outputs.items[..|sent.items|]
      && (r.end == Done <==> sent.end == Done || sent.end == Fails(Undefined))
      && (r.end == Done ==> r.trailer == MetadataReceived(trailer))
      && ConnectArrives(sent.end, r.end)
  {
    ConnectLast(call, outputs, trailer, text, b64, orderOf, last, chunks);
    ConnectEndToEnd(call, outputs, trailer, text, b64, orderOf, chunks);
    ConnectEnding(call.Sent(outputs).end, trailer);
  }

  /** The ending that ConnectEndToEnd promises. */
  lemma ConnectEnding(thrown: Ending, trailer: Headers)
    ensures
      var error := ErrorOf(Caught(thrown));
      var metadata := MetadataReceived(Merged(trailer, error));
      var end := match error
        case None => Done
        case Some(e) => Fails(if ErrorSurvives(e) then Raised(ErrorReceived(e, metadata)) else LOST_ERROR);
      && ConnectArrives(thrown, end)
      && (error.None? <==> thrown == Done || thrown == Fails(Undefined))
      && (error.None? ==> Merged(trailer, error) == trailer)
  {
  }

  lemma ConnectLast<M(!new)>(call: Call<M, EndStream>, outputs: Stream<M>, trailer: Headers, text: JsonText, b64: Base64,
                             orderOf: Headers -> seq<string>, last: Envelope, chunks: seq<seq<byte>>)
    requires ConnectCall(call, outputs, trailer, text, b64, orderOf, last, chunks)
    ensures
      var error := ErrorOf(Caught(call.Sent(outputs).end));
      && last == ConnectEnd(trailer, error, text, b64, orderOf) && WellFormed(Merged(trailer, error))
      && (error.Some? ==> DebugsAreValues(error.value.details))
  {
    var error := ErrorOf(Caught(call.Sent(outputs).end));
    assert ConnectFinally(trailer, call.ends)(Caught(call.Sent(outputs).end)) == Ok(Some(ConnectEnd(trailer, error, text, b64, orderOf)));
    MergedWellFormed(trailer, error);
  }

  lemma MergedWellFormed(trailer: Headers, error: Option<ConnectError>)
    requires WellFormed(trailer) && (error.Some? ==> WellFormed(error.value.metadata))
    ensures WellFormed(Merged(trailer, error))
  {
    if error.Some? {
      AppendAllWellFormed(map[], trailer);
      AppendAllWellFormed(AppendAll(map[], trailer), error.value.metadata);
    }
  }

  // ---- gRPC-web ----------------------------------------------------------

  function GrpcWebRules(codec: StatusCodec): EndRules<Headers> {
    EndRules(
      (h: Headers) => (match FindTrailerError(h, codec)
                       case Ok(None) => None
                       case Ok(Some(error)) => Some(Raised(error))
                       case Err(reason) => Some(reason)),
      (h: Headers) => h,
      "received extra trailer", "received extra message after trailer", "missing trailer")
  }

  /** context.responseTrailer once the callback has run: it sets a status only for an error. */
  function FinalTrailer(trailer: Headers, error: Option<ConnectError>, codec: StatusCodec): Headers {
    if error.Some? then SetTrailerStatus(trailer, error, codec) else trailer
  }

  function GrpcWebFinally(trailer: Headers, codec: StatusCodec, ends: Serialization<Headers>): Finally<Envelope> {
    reason =>
      match ends.serialize(FinalTrailer(trailer, ErrorOf(reason), codec))
      case Ok(data) => Ok(Some(Envelope(TRAILER_FLAG, data)))
      case Err(raised) => Err(raised)
  }

  function GrpcWebEnd(trailer: Headers, error: Option<ConnectError>, codec: StatusCodec, utf8: Utf8, orderOf: Headers -> seq<string>): Envelope
    requires forall h: Headers, k :: k in orderOf(h) ==> k in h
  {
    var final := FinalTrailer(trailer, error, codec);
    Envelope(TRAILER_FLAG, utf8.encode(TrailerText(orderOf(final), final)))
  }

  lemma StatusNames()
    ensures IsName(GRPC_STATUS) && IsName(GRPC_MESSAGE) && IsName(STATUS_DETAILS)
  {
  }

  lemma SetKeepsWellFormed(h: Headers, name: string, value: string)
    requires WellFormed(h) && IsName(name) && IsFieldValue(value)
    ensures WellFormed(Set(h, name, value))
  {
    NormalizedIsFieldValue(value);
  }

  lemma FinalTrailerWellFormed(trailer: Headers, error: Option<ConnectError>, codec: StatusCodec)
    requires WellFormed(trailer) && codec.Lawful()
    ensures WellFormed(FinalTrailer(trailer, error, codec))
  {
    if error.Some? {
      var e := error.value;
      StatusNames();
      IntToStringIsTrimmed(e.code);
      var h := Set(trailer, GRPC_STATUS, IntToString(e.code));
      SetKeepsWellFormed(trailer, GRPC_STATUS, IntToString(e.code));
      SetKeepsWellFormed(h, GRPC_MESSAGE, codec.encodeURIComponent(e.message));
      SetKeepsWellFormed(Set(h, GRPC_MESSAGE, codec.encodeURIComponent(e.message)), STATUS_DETAILS,
                         codec.encodeBinary(Status(e.code, e.message, PackAll(e.details))));
    }
  }

  lemma ParseGrpcWebEnd(trailer: Headers, error: Option<ConnectError>, codec: StatusCodec, utf8: Utf8, orderOf: Headers -> seq<string>)
    requires codec.Lawful() && utf8.Lawful() && Ordering(orderOf) && WellFormed(trailer)
    ensures
      var end := GrpcWebEnd(trailer, error, codec, utf8, orderOf);
      var final := TrimAll(FinalTrailer(trailer, error, codec));
      && HasFlag(end.flags, TRAILER_FLAG) && !HasFlag(end.flags, COMPRESSED_FLAG)
      && TrailerSerialization(utf8, orderOf).parse(end.data) == Ok(final)
      && Copy(final) == final
  {
    var final := FinalTrailer(trailer, error, codec);
    FinalTrailerWellFormed(trailer, error, codec);
    TrailerHasNoBom(orderOf(final), final);
    TrailerRoundTrip(orderOf(final), final);
    TrimAllWellFormed(final);
    EndFlags();
  }

  /** gRPC-web streaming, end to end, whatever status the trailers carry. */
  lemma GrpcWebDelivers<M(!new)>(call: Call<M, Headers>, outputs: Stream<M>, trailer: Headers,
                                 codec: StatusCodec, utf8: Utf8, orderOf: Headers -> seq<string>, chunks: seq<seq<byte>>)
    requires codec.Lawful() && utf8.Lawful() && Ordering(orderOf) && WellFormed(trailer)
    requires call.Valid() && Faithful(call.messages, outputs.items, call.readMaxBytes)
    requires call.endFlag == TRAILER_FLAG && call.ends == TrailerSerialization(utf8, orderOf)
    requires
      var error := ErrorOf(Caught(call.Sent(outputs).end));
      forall e :: e in call.Sent(outputs).items + [GrpcWebEnd(trailer, error, codec, utf8, orderOf)] ==> Fits(call, e)
    requires Flatten(chunks) == Flatten(call.Server(outputs, GrpcWebFinally(trailer, codec, call.ends)).items)
    ensures
      var final := TrimAll(FinalTrailer(trailer, ErrorOf(Caught(call.Sent(outputs).end)), codec));
      var messages := outputs.items[..|call.Sent(outputs).items|];
      Consume(call.Client(Flatten(chunks)), GrpcWebRules(codec))
        == match GrpcWebRules(codec).error(final)
           case None => Received(messages, final, Done)
           case Some(reason) => Received(messages, map[], Fails(reason))
  {
    var error := ErrorOf(Caught(call.Sent(outputs).end));
    var end := GrpcWebEnd(trailer, error, codec, utf8, orderOf);
    var final := TrimAll(FinalTrailer(trailer, error, codec));
    var rules := GrpcWebRules(codec);
    ParseGrpcWebEnd(trailer, error, codec, utf8, orderOf);
    Delivery(call, outputs, GrpcWebFinally(trailer, codec, call.ends), end, final, chunks);
    ConsumeWhole(outputs.items[..|call.Sent(outputs).items|], final, rules);
    assert rules.metadata(final) == final;
  }

  /** With the status that the handler's trailers start with, and no details header set by the implementation:
      a call that ends normally finishes with the trailers, and an error arrives with its code, message and details. */
  lemma GrpcWebEndToEnd<M(!new)>(call: Call<M, Headers>, outputs: Stream<M>, trailer: Headers,
                                 codec: StatusCodec, utf8: Utf8, orderOf: Headers -> seq<string>, chunks: seq<seq<byte>>)
    requires codec.Lawful() && utf8.Lawful() && Ordering(orderOf) && WellFormed(trailer)
    requires call.Valid() && Faithful(call.messages, outputs.items, call.readMaxBytes)
    requires call.endFlag == TRAILER_FLAG && call.ends == TrailerSerialization(utf8, orderOf)
    requires GRPC_STATUS in trailer && trailer[GRPC_STATUS] == GRPC_STATUS_OK && STATUS_DETAILS !in trailer
    requires
      var error := ErrorOf(Caught(call.Sent(outputs).end));
      && (error.Some? ==> StatusCarries(error.value))
      && forall e :: e in call.Sent(outputs).items + [GrpcWebEnd(trailer, error, codec, utf8, orderOf)] ==> Fits(call, e)
    requires Flatten(chunks) == Flatten(call.Server(outputs, GrpcWebFinally(trailer, codec, call.ends)).items)
    ensures
      var error := ErrorOf(Caught(call.Sent(outputs).end));
      var final := TrimAll(FinalTrailer(trailer, error, codec));
      var messages := outputs.items[..|call.Sent(outputs).items|];
      Consume(call.Client(Flatten(chunks)), GrpcWebRules(codec))
        == match error
           case None => Received(messages, TrimAll(trailer), Done)
           case Some(e) => Received(messages, map[],
             Fails(Raised(ConnectError(e.code, e.message, final, WithoutDebug(e.details)))))
  {
    GrpcWebDelivers(call, outputs, trailer, codec, utf8, orderOf, chunks);
    var error := ErrorOf(Caught(call.Sent(outputs).end));
    if error.Some? {
      StatusRoundTrip(trailer, error.value, codec);
      FinalTrailerWellFormed(trailer, error, codec);
      TrimAllWellFormed(FinalTrailer(trailer, error, codec));
    } else {
      OkRoundTrip(trailer, codec);
    }
  }

  /** As ConnectCall, with the status that the handler's trailers start with, and no details header set by the implementation. */
  ghost predicate GrpcWebCall<M(!new)>(call: Call<M, Headers>, outputs: Stream<M>, trailer: Headers, codec: StatusCodec, utf8: Utf8,
                                       orderOf: Headers -> seq<string>, last: Envelope, chunks: seq<seq<byte>>) {
    var sent := call.Sent(outputs);
    && codec.Lawful() && utf8.Lawful() && Ordering(orderOf) && WellFormed(trailer)
    && call.Valid() && Faithful(call.messages, outputs.items, call.readMaxBytes)
    && call.endFlag == TRAILER_FLAG && call.ends == TrailerSerialization(utf8, orderOf)
    && GRPC_STATUS in trailer && trailer[GRPC_STATUS] == "0" && STATUS_DETAILS !in trailer
    && GrpcWebFinally(trailer, codec, call.ends)(Caught(sent.end)) == Ok(Some(last))
    && (forall e :: e in sent.items + [last] ==> Fits(call, e))
    && Flatten(chunks) == Flatten(call.Server(outputs, GrpcWebFinally(trailer, codec, call.ends)).items)
  }

  /** How a client's iteration ends, by how the handler's ended. */
  ghost predicate GrpcWebArrives(handler: Ending, client: Ending) {
    match handler
    case Done => client == Done
    case Fails(Undefined) => client == Done
    case Fails(Foreign(_)) => IsFailure(client, 13, "internal error", [])
    case Fails(Raised(e)) => ErrorArrives(e, client)
  }

  ghost predicate ErrorArrives(e: ConnectError, client: Ending) {
    && (client == Done <==> e.code == 0)
    && (StatusCarries(e) ==> IsFailure(client, e.code, e.message, e.details))
    && (|e.details| > 0 && e.code != 0 ==> client.Fails? && client.reason.Raised? && client.reason.error.code == e.code)
    && (|e.details| == 0 && !(0 <= e.code <= 16) ==> IsFailure(client, 13, "invalid grpc-status: " + IntToString(e.code), []))
  }

  /** gRPC-web streaming, by how the handler ended. The call ends normally exactly if the handler did, threw undefined, or threw
      an error with the code zero. Any other value that is no ConnectError arrives as an Internal error (code 13) that tells
      nothing. A ConnectError arrives with its code, message and details if the status can carry them; with details, its code
      arrives whatever it is; and without, one that is not in the enum arrives as an Internal error that says so. */
  lemma GrpcWebOutcome<M(!new)>(call: Call<M, Headers>, outputs: Stream<M>, trailer: Headers, codec: StatusCodec, utf8: Utf8,
                                orderOf: Headers -> seq<string>, last: Envelope, chunks: seq<seq<byte>>)
    requires GrpcWebCall(call, outputs, trailer, codec, utf8, orderOf, last, chunks)
    ensures
      var sent := call.Sent(outputs);
      var r := Consume(call.Client(Flatten(chunks)), GrpcWebRules(codec));
      && |sent.items| <= |outputs.items| && r.messages == outputs.items[..|sent.items|]
      && GrpcWebArrives(sent.end, r.end)
      && (sent.end == Done || sent.end == Fails(Undefined) ==> r.trailer == TrimAll(trailer))
  {
    GrpcWebDelivers(call, outputs, trailer, codec, utf8, orderOf, chunks);
    GrpcWebEnding(call.Sent(outputs).end, trailer, codec);
  }

  function EndingOf(h: Headers, codec: StatusCodec): Ending {
    match GrpcWebRules(codec).error(h)
    case None => Done
    case Some(reason) => Fails(reason)
  }

  /** The ending that GrpcWebDelivers promises. */
  lemma GrpcWebEnding(thrown: Ending, trailer: Headers, codec: StatusCodec)
    requires codec.Lawful() && GRPC_STATUS in trailer && trailer[GRPC_STATUS] == "0" && STATUS_DETAILS !in trailer
    ensures
      var error := ErrorOf(Caught(thrown));
      var final := TrimAll(FinalTrailer(trailer, error, codec));
      && GrpcWebArrives(thrown, EndingOf(final, codec))
      && (thrown == Done || thrown == Fails(Undefined) ==> final == TrimAll(trailer))
  {
    var error := ErrorOf(Caught(thrown));
    if error.Some? {
      if |error.value.details| > 0 {
        DetailsArrive(trailer, error.value, codec);
      } else {
        StatusArrives(trailer, error.value, codec);
      }
    } else {
      OkRoundTrip(trailer, codec);
    }
  }

  /** What an error in the trailers comes to, with details and without. */
  lemma DetailsArrive(trailer: Headers, e: ConnectError, codec: StatusCodec)
    requires codec.Lawful() && |e.details| > 0
    ensures ErrorArrives(e, EndingOf(TrimAll(SetTrailerStatus(trailer, Some(e), codec)), codec))
  {
    StatusFields(trailer, e, codec);
    if StatusCarries(e) {
      StatusRoundTrip(trailer, e, codec);
    }
    DetailsMean(TrimAll(SetTrailerStatus(trailer, Some(e), codec)), codec);
  }

  lemma StatusArrives(trailer: Headers, e: ConnectError, codec: StatusCodec)
    requires codec.Lawful() && |e.details| == 0 && STATUS_DETAILS !in trailer
    ensures ErrorArrives(e, EndingOf(TrimAll(SetTrailerStatus(trailer, Some(e), codec)), codec))
  {
    StatusFields(trailer, e, codec);
    CodeThroughStatus(e.code);
    StatusMeans(TrimAll(SetTrailerStatus(trailer, Some(e), codec)), codec);
  }
}
