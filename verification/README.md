# Verification of the Connect streaming core

This project models the parts of Connect for ECMAScript in which bytes, promises and connections are put in order,
and proves what they promise. `dafny verify dfyconfig.toml` checks all of it.

**Streaming calls** (`Envelope`, `SplitEnvelope`, `EnvelopeReader`, `Pipeline`, `Sinks`, `EndStream`, `Trailer`,
`EndToEnd`, `StreamingCalls`, `Requests`). A handler's messages become envelopes of one flag byte, a 32-bit big-endian length
and a payload. One last envelope ends the stream: an EndStreamResponse in JSON for Connect, a block of trailers with
a gRPC status for gRPC-web. Envelopes are compressed selectively and joined to bytes. The client splits whatever
chunks arrive, decompresses, parses, and insists on messages followed by exactly one end. The main results are
`ConnectEndToEnd` and `GrpcWebDelivers`/`GrpcWebEndToEnd`, which follow every list of messages, every ending of the
handler, every compression and threshold, and every re-chunking of the bytes from the handler to the application.
`ConnectOutcome` and `GrpcWebOutcome` say what that means for the application, for each way in which a handler may end.
`Delivery` gives the exact limit: the call goes through if and only if every payload is within `readMaxBytes`; otherwise
everything before the first one that is not arrives, and then an error (`OversizeIsRefused`). `TruncationIsNoticed` says
what the end of stream is for: a response that is cut short never passes for a whole one. Requests have no such end, and
`RequestCutPasses` tells exactly which cuts go unnoticed.

**The writable iterable** (`WritableIterable`). The queue that hands values from a writer to a reader, as a step
relation over all interleavings of write, next, close, throw, return and the resumption of suspended writes. It is
a first-in first-out channel, every read resolves at most once, and an acknowledged write was delivered, in every run.
What reads are answered is a function of the sequences of writes and reads alone, however they interleave
(`HistoryDecides`), and every suspended write goes through after a known number of reads, unless the consumer stops
(`WriteGoesThrough`, `SuspendedGoesThrough`, `OnlyStopsFail`). The statements come with the exact condition under
which they break.

**The HTTP/2 session manager** (`Http2Session`). Which connection is current, which ones are being retired after
GOAWAY (section 6.8 of RFC 7540), and how many streams a connection has, over all runs of calls, stale promise
settlements, connection events and timers, including connections that die after the manager stopped listening to them.
Next to the invariants stands what every call, promise and event leads to (`RequestGoesOn`, `PromisesLead`,
`CurrentDisturbs`, `AbortClosesAll`, `EventsAreRecorded`).

**Smaller cores**: reading a body with or without a promised length (`ReadAllBytes`), compression negotiation between
client and server (`Negotiation`), linked abort controllers (`LinkedAbort`, section 3.2 of the DOM Standard), the
migration tool's dependency replacement (`ReplaceDependencies`), and the walk along the causes of a Node.js error
(`NodeError`). `Base`, `Js` and `Http` hold vocabulary: byte sequences, the string functions of JavaScript, header
fields, errors and streams.

How the model is laid out: a generator that the code drives with `for await` is a method from a `Stream` (its items and
its ending) to a `Stream`, proved equal to a function of its input, and the laws are lemmas about that function. Objects
with mutable state are classes whose methods are proved equal to steps of a state machine. Codecs that the repository
imports (protobuf, JSON text, base64, UTF-8, percent coding, compression, semver) are parameters, with the laws they
must meet stated as predicates (`Faithful`, `Lawful`, `Lossless`, `Honest`). The laws are restricted to what the codecs of
the runtime do: JSON carries neither NaN nor infinities nor negative zero, and TextDecoder drops a byte order mark.

## What the code does not promise

Cases in which a natural property is false of the code, each with its exact condition:

- A header called `__proto__` is lost from an EndStreamResponse, because it is assigned to a plain object
  (`MetadataUnchanged`, `ProtoIsLost`).
- An error detail whose `debug` value is a JSON string, number or boolean makes the client discard the whole error
  (`ErrorRoundTrip`, `ConnectEndToEnd`, `DebugIsFatal`).
- A value `undefined` thrown by a handler ends the call successfully (`ConnectEndToEnd`), and a value `undefined`
  written to the writable iterable breaks its queue, is lost, and is acknowledged (`NeverBothQueued`, `NothingIsLost`,
  `AcknowledgementIsSafe`).
- A consumer of the writable iterable that calls `next()` after `throw()` or `return()` can acknowledge a write that
  nobody received (`FalseAcknowledgement`).
- A connection that was verified is current again, but without listeners: its close, error or GOAWAY is not heard
  (`CurrentDisturbs`, `DeafAfterVerification`), and it has no idle timer until a stream of it closes
  (`IdleTimerOutstanding`).
- A current connection that receives GOAWAY and then closes is listed as shutting down after it was cleaned up, and
  stays in the list (`RetiredLeaves`, `LingeringStays`, `RetiredLingers`).
- A gRPC status with details loses a byte order mark at the start of its message (`StatusRoundTrip`, `BomIsLost`).
- A streaming request that is cut between two envelopes passes for a whole one (`RequestCutPasses`).
- A dependency that is replaced in place matches its own replacement again (`InPlaceReplacementRepeats`,
  `IdempotentIff`).
- A stale `grpc-status-details-bin` in the response trailers replaces an error without details (`StaleDetailsWin`).
- `createEnvelopeReadableStream` reads lengths from 2^31 on as negative numbers (`SignedLengthIsLength`,
  `SignedLengthBreaksChunking`), and emits a short payload where `transformSplitEnvelope` raises an error
  (`SplittersDisagreeOnTruncation`).
- A client that sends with a compression but accepts none meets an "unsupported response encoding"
  (`UnsupportedEncodingIff`).

Where documentation and code differ, the model follows the code. The documentation of `readAllBytes` (lines 1081-1085
of `packages/connect/src/protocol/async-iterable.ts`) speaks of a positive `lengthHint`, but a hint of zero is a promise as
well. The documentation of `createLinkedAbortController` says that all listeners are removed once a signal aborts; between
the abort of a source and its event, and when further sources abort meanwhile, they are still there, and they are gone as
soon as no event is on its way.

## Model

| member | source | states |
|---|---|---|
| Envelopes.ReadU32OfU32 | packages/connect/src/protocol/envelope.ts:164-171 | a length survives the 32-bit header exactly when it is below 2^32, and otherwise loses its upper bits |
| Envelopes.U32OfReadU32 | packages/connect/src/protocol/async-iterable.ts:1031-1045 | the length that is read back determines the four header bytes |
| Envelopes.WriteEnvelope | packages/connect/src/protocol/envelope.ts:178-194 | writes one envelope into a shared buffer and leaves the bytes before it alone |
| Envelopes.EncodeEnvelope | packages/connect/src/protocol/envelope.ts:164-171 | the new buffer holds flag, big-endian length and payload |
| Envelopes.EncodingLayout | packages/connect/src/protocol/envelope.ts:164-171 | the layout of the bytes: flags, four bytes of length of which the first weighs most, payload |
| Envelopes.SizeOfEnvelopes | packages/connect/src/protocol/envelope.ts:178-183 | the buffer size is the length of all encodings together |
| Envelopes.EncodeEnvelopes | packages/connect/src/protocol/envelope.ts:178-194 | the single buffer, filled in place, holds the encodings one after the other |
| Envelopes.CompressedBitIsIndependent | packages/connect/src/protocol/compression.ts:25 | setting or flipping the compression bit never changes another flag |
| Envelopes.FlagIsBit | packages/connect/src/protocol/async-iterable.ts:925-926 | a flag is set exactly if its bit is, whatever bits are above and below |
| Envelopes.EnvelopeCompress | packages/connect/src/protocol/envelope.ts:110-127 | the flag of the result tells whether the payload reached the threshold and was compressed; otherwise the envelope is untouched; one that is compressed already is an Internal error |
| Envelopes.EnvelopeDecompress | packages/connect/src/protocol/envelope.ts:140-157 | nothing compressed comes out, nothing uncompressed is touched, an error of the compression is passed on, and without a compression a compressed envelope is an InvalidArgument error |
| Envelopes.DecompressUndoesCompress | packages/connect/src/protocol/envelope.ts:110-157 | selective compression followed by decompression gives the envelope back with its flags, for every threshold |
| SplitEnvelope.ShiftIsFront | packages/connect/src/protocol/async-iterable.ts:1013-1045 | shifting takes exactly one encoded envelope off the front of the buffer |
| SplitEnvelope.SplitAppend | packages/connect/src/protocol/async-iterable.ts:1047-1075 | splitting may stop after any prefix of the bytes and go on with the residual buffer, for the same result |
| SplitEnvelope.SplitConserves | packages/connect/src/protocol/async-iterable.ts:1047-1075 | no byte is lost or invented: emitted envelopes, encoded again, and the left-over buffer are the input |
| SplitEnvelope.SplitEncoded | packages/connect/src/protocol/async-iterable.ts:1004-1076 | envelopes within the limit come back whole and in order, whatever bytes follow them |
| SplitEnvelope.SplitUndoesJoin | packages/connect/src/protocol/async-iterable.ts:982-1076 | splitting undoes joining if and only if every payload is within readMaxBytes |
| SplitEnvelope.SplitStopsAtOversize | packages/connect/src/protocol/limit-io.ts:89-101 | the first payload above the limit ends the stream with ResourceExhausted, after all envelopes before it, whatever follows |
| SplitEnvelope.SplitEnds | packages/connect/src/protocol/async-iterable.ts:1064-1075 | how a stream of whole envelopes and an incomplete one ends: with the error of the source, or normally if nothing is left over, or with an InvalidArgument error that names the incomplete part |
| SplitEnvelope.ShiftAll | packages/connect/src/protocol/async-iterable.ts:1051-1062 | the inner loop yields every complete envelope of the buffer, and stops at the limit |
| SplitEnvelope.EnvelopeSplitter.constructor | packages/connect/src/protocol/async-iterable.ts:1047-1049 | a splitter starts with nothing consumed and nothing emitted |
| SplitEnvelope.EnvelopeSplitter.Chunk | packages/connect/src/protocol/async-iterable.ts:1049-1063 | after every chunk, encode(emitted) and the buffer are the bytes consumed, and what was emitted is what one pass over all of them emits |
| SplitEnvelope.EnvelopeSplitter.Finish | packages/connect/src/protocol/async-iterable.ts:1064-1075 | a left-over buffer is an error that says whether the header or the payload is incomplete |
| SplitEnvelope.TransformSplitEnvelope | packages/connect/src/protocol/async-iterable.ts:1004-1076 | chunk invariance: envelopes and outcome depend only on the concatenated bytes and on how the source ended |
| EnvelopeReader.SignedLengthIsLength | packages/connect/src/protocol/envelope.ts:68-72 | the signed shifts compute the big-endian length if and only if it is below 2^31, and that length minus 2^32 otherwise |
| EnvelopeReader.ReadLength | packages/connect/src/protocol/envelope.ts:68-72 | the loop computes the signed length of the four header bytes |
| EnvelopeReader.PullFront | packages/connect/src/protocol/envelope.ts:60-101 | one pull enqueues the front envelope and keeps the bytes behind it, however they are spread over buffer and chunks |
| EnvelopeReader.PullTail | packages/connect/src/protocol/envelope.ts:78-98 | what pulls do with left-over bytes: close, a data loss error, a short payload, or the error of the source |
| EnvelopeReader.ReaderEmits | packages/connect/src/protocol/envelope.ts:47-101 | on every chunking of bytes with lengths below 2^31 the complete envelopes are enqueued in order, and the tail is handled as above |
| EnvelopeReader.SplittersAgree | packages/connect/src/protocol/envelope.ts:47-101 | on every chunking of complete envelopes below 2^31 both splitters emit the same envelopes, and end as the source does, normally or with its error |
| EnvelopeReader.SplittersDisagreeOnTruncation | packages/connect/src/protocol/envelope.ts:78-98 | on every truncated payload one splitter raises an error, and the other emits the short payload and closes |
| EnvelopeReader.CutLosesPayload | packages/connect/src/protocol/envelope.ts:68-98 | a chunk that ends behind the header of an envelope of 2^31 bytes or more makes the reader emit it without its payload |
| EnvelopeReader.SignedLengthBreaksChunking | packages/connect/src/protocol/envelope.ts:47-101 | for lengths below 2^32: the reader emits complete envelopes from every chunking of their bytes if and only if all lengths are below 2^31 |
| EnvelopeReader.EnvelopeReadableStream.PullEnvelope | packages/connect/src/protocol/envelope.ts:57-100 | the pull loop with its mutable buffer does what one pull is specified to do |
| ReadAllBytes.HintOfDecimal | packages/connect/src/protocol/async-iterable.ts:1138-1150 | a decimal length hint is honored exactly up to the largest safe integer |
| ReadAllBytes.HintIsHonored | packages/connect/src/protocol/async-iterable.ts:1138-1150 | a number is honored exactly if it is an integer from 0 to 2^53 - 1, and a text that does not start with a number is ignored |
| ReadAllBytes.ReadAllBytes | packages/connect/src/protocol/async-iterable.ts:1089-1135 | which sources succeed, with the concatenation of the chunks, and which error every other source meets |
| ReadAllBytes.ReadPromised | packages/connect/src/protocol/async-iterable.ts:1095-1120 | with a hint, the concatenation is returned exactly when its length is the hint, and the hint is within the limit |
| ReadAllBytes.ReadUnpromised | packages/connect/src/protocol/async-iterable.ts:1121-1135 | without a hint, the concatenation is returned exactly when its length is within the limit |
| ReadAllBytes.Concatenate | packages/connect/src/protocol/async-iterable.ts:1128-1134 | copying chunk after chunk at a moving offset concatenates them |
| ReadAllBytes.CorrectHintRefines | packages/connect/src/protocol/async-iterable.ts:1089-1135 | with the right hint the hinted form agrees with the unhinted one on value, success and kind of failure |
| ReadAllBytes.WrongHintFails | packages/connect/src/protocol/async-iterable.ts:1089-1135 | the hinted form succeeds exactly when the unhinted one does and the hint is the total length |
| Pipeline.TransformEach | packages/connect/src/protocol/async-iterable.ts:806-974 | the loop shared by the transforms that serialize, parse, compress, decompress and join is an element-wise map |
| Pipeline.MapStreamIsPrefix | packages/connect/src/protocol/async-iterable.ts:806-974 | what comes out is the image of a prefix of what went in; the error is the first one raised, or the source's own |
| Pipeline.TransformCatchFinally | packages/connect/src/protocol/async-iterable.ts:665-691 | elements pass through, and the callback sees the error, or undefined, exactly once and last; it may append an element, or none |
| Pipeline.ServerPipeline | packages/connect/src/protocol-connect/handler-factory.ts:424-469 | serialize, end, compress and join, in this order, as one function of the handler's output |
| Pipeline.ClientPipeline | packages/connect/src/protocol-connect/transport.ts:248-259 | split, decompress and parse are one function of the concatenated bytes of the body |
| Pipeline.TransformParsePlain | packages/connect/src/protocol/async-iterable.ts:919-935 | without a serialization for ends, envelopes with the end flag are skipped, or refused, and the others parsed |
| Pipeline.RequestPipeline | packages/connect/src/protocol-connect/transport.ts:225-236 | serialize, compress and join, as one function of the application's messages |
| Pipeline.HandlerPipeline | packages/connect/src/protocol-connect/handler-factory.ts:399-419 | split, decompress and parse are one function of the concatenated body of a request |
| Sinks.SinkAccepts | packages/connect/src/protocol-connect/transport.ts:260-293 | the sink finishes normally if and only if the stream is messages followed by exactly one error-free end, and then yields all messages and the end's metadata |
| Sinks.SinkOutcomes | packages/connect/src/protocol-connect/transport.ts:260-293 | every outcome of a sink on messages and what follows them: the error of the source or of the end, or a complaint with the code InvalidArgument about a missing end, an extra end or an extra message |
| Sinks.YieldedIsPrefix | packages/connect/src/protocol-grpc-web/transport.ts:278-307 | on every stream, well-formed or not, what was yielded is a prefix of the messages in order |
| Sinks.StreamSink | packages/connect/src/protocol-connect/transport.ts:260-293 | the loop with its flag computes the specified outcome, with the right complaint for an extra end, an extra message and a missing end |
| Sinks.TrailersOnlySink | packages/connect/src/protocol-grpc-web/transport.ts:259-277 | after a grpc-status header the call succeeds exactly on an empty body; anything in it is a protocol error |
| Sinks.UnarySink | packages/connect/src/protocol-grpc-web/transport.ts:127-167 | success exactly on one message and one error-free trailer, in either order; the error of the only trailer is raised, with a message before it, after it, or missing; two messages, two trailers or a missing part are protocol errors, and an error of the source is raised |
| EndStreams.CodeRoundTrip | packages/connect/src/protocol-connect/code-string.ts:22-54 | the string of a code reads back as the code if and only if it is one of the enum |
| EndStreams.WriteEndStream | packages/connect/src/protocol-connect/end-stream.ts:109-130 | filling the object step by step gives the specified JSON value |
| EndStreams.WriteMetadata | packages/connect/src/protocol-connect/end-stream.ts:118-128 | the metadata object after forEach, and whether there was any field |
| EndStreams.ReadMetadata | packages/connect/src/protocol-connect/end-stream.ts:58-83 | a parse error exactly for fields that are no lists of strings or no valid fields; otherwise a name holds the normalized values of all fields of that name, in any case, joined with ", " in the order of fields and values, and no other name is there |
| EndStreams.ReadDetails | packages/connect/src/protocol-connect/error-json.ts:55-80 | details in order, or the fallback as soon as one is malformed |
| EndStreams.EndStreamsByOthers | packages/connect/src/protocol-connect/end-stream.ts:50-89 | which JSON values are EndStreamResponses, by whomever they were written, and which of them carry an error |
| EndStreams.ErrorsByOthers | packages/connect/src/protocol-connect/error-json.ts:31-108 | which JSON values are errors, with which code, message, number of details and metadata; all others throw the fallback, with the metadata behind its own |
| EndStreams.DetailsRoundTrip | packages/connect/src/protocol-connect/error-json.ts:55-80 | ordered details come back with type, value and debug, exactly when every debug value is absent or of type object |
| EndStreams.ErrorRoundTrip | packages/connect/src/protocol-connect/error-json.ts:31-158 | code, message and details of an error come back exactly when its code is known and its debug values survive; otherwise the fallback is thrown |
| EndStreams.MetadataRoundTrip | packages/connect/src/protocol-connect/end-stream.ts:58-128 | all fields come back normalized, in every order of iteration and whatever their order in the object, but for one called `__proto__` |
| EndStreams.EndStreamRoundTrip | packages/connect/src/protocol-connect/end-stream.ts:50-130 | endStreamFromJson after endStreamToJson gives the merged metadata and the error, or the fallback error, for any number of fields and details |
| EndStreams.EndStreamIsValue | packages/connect/src/protocol-connect/end-stream.ts:109-130 | what endStreamToJson builds is a value that JSON can carry: keys are different ones, in the order of the object, and array indices come first |
| EndStreams.WireForm | packages/connect/src/protocol-connect/end-stream.ts:109-130 | the JSON form of a response with an error, a detail and metadata, written out |
| EndStreams.SmallestForms | packages/connect/src/protocol-connect/end-stream.ts:109-130 | a response without error and metadata is an empty object, and an error without message and details just a code |
| EndStreams.MergedOrder | packages/connect/src/protocol-connect/end-stream.ts:114-117 | the metadata of the error stands behind the trailers of the same name |
| EndStreams.MetadataUnchanged | packages/connect/src/protocol-connect/end-stream.ts:50-130 | endStreamFromJson returns the metadata that endStreamToJson was given if and only if there is no `__proto__`, all values are normalized, and the error survives |
| EndStreams.ProtoIsLost | packages/connect/src/protocol-connect/end-stream.ts:118-128 | a valid trailer called `__proto__` that is lost |
| EndStreams.DebugIsFatal | packages/connect/src/protocol-connect/error-json.ts:61-70 | an error that is discarded for another one because a debug value is a string |
| Http.AppendInOrder | packages/connect/src/http-headers.ts:87-95 | merging header fields gives the same object in every order of iteration |
| Http.AppendAllWellFormed | packages/connect/src/http-headers.ts:87-95 | merging keeps names and values valid |
| Http.AppendListHolds | packages/connect/src/http-headers.ts:87-95 | after fields were appended, a name holds what it held and behind that the normalized values of all fields of that name, in any case, in their order |
| Trailers.TrailerSerialize | packages/connect/src/protocol-grpc-web/trailer.ts:52-58 | one line for each field, in order |
| Trailers.TrailerParse | packages/connect/src/protocol-grpc-web/trailer.ts:30-46 | the loop over the lines appends exactly the fields they hold |
| Trailers.TrailerRoundTrip | packages/connect/src/protocol-grpc-web/trailer.ts:30-58 | parsing undoes serializing for every set of valid fields, in every order, up to white space around values |
| Trailers.TrailersByOthers | packages/connect/src/protocol-grpc-web/trailer.ts:30-46 | in a block in which names repeat, a name holds all its values, trimmed, in the order of the lines |
| Trailers.LineIsPassedOver | packages/connect/src/protocol-grpc-web/trailer.ts:34-38 | a line without a name before a colon is passed over |
| Trailers.TrailerUnchanged | packages/connect/src/protocol-grpc-web/trailer.ts:30-58 | the trailer comes back unchanged if and only if no value starts or ends with white space |
| Trailers.TrailerHasNoBom | packages/connect/src/protocol-grpc-web/trailer.ts:52-58 | a serialized trailer does not start with a byte order mark, which decoding would take off |
| Trailers.WriteTrailerStatus | packages/connect/src/protocol-grpc/trailer-status.ts:43-69 | sets the status fields and keeps every other field |
| Trailers.CodeThroughStatus | packages/connect/src/protocol-grpc/trailer-status.ts:105-117 | the decimal form of a number is "0" exactly for zero, and reads back as a code exactly if it is one of the enum |
| Trailers.StatusMeans | packages/connect/src/protocol-grpc/trailer-status.ts:105-124 | without details there is no error exactly if the status is missing or "0"; a code of the enum gives an error with that code and the decoded message, and every other status an Internal error that names it, with all trailers as metadata |
| Trailers.DetailsMean | packages/connect/src/protocol-grpc/trailer-status.ts:87-104 | with details there is no error exactly if their code is zero; otherwise the error has their code, message and number of details |
| Trailers.UnknownStatusIsInternal | packages/connect/src/protocol-grpc/trailer-status.ts:118-122 | the status 17 is an Internal error |
| Trailers.DetailsThroughStatus | packages/connect/src/protocol-grpc/trailer-status.ts:57-104 | details come back with the same type names and values if and only if no type name has a slash |
| Trailers.StatusRoundTrip | packages/connect/src/protocol-grpc/trailer-status.ts:43-125 | findTrailerError on the parsed trailer recovers code, message and details if and only if the status can carry them, without stale details |
| Trailers.BomIsLost | packages/connect/src/protocol-grpc/trailer-status.ts:57-104 | an error with a detail whose message loses its byte order mark |
| Trailers.StaleDetailsWin | packages/connect/src/protocol-grpc/trailer-status.ts:57-104 | errors without details arrive for every code and message if and only if the trailers held no details header |
| Trailers.OkRoundTrip | packages/connect/src/protocol-grpc/trailer-status.ts:80-125 | the trailers of a successful call carry no error |
| EndToEnd.EncodeAllInjective | packages/connect/src/protocol/envelope.ts:164-194 | bytes are the encoding of at most one list of envelopes |
| EndToEnd.ClientEnvelopes | packages/connect/src/protocol/async-iterable.ts:945-1076 | splitting and decompressing the server's bytes gives its envelopes if and only if all of them fit, and never ends cleanly otherwise |
| EndToEnd.LimitedIsFaithful | packages/connect/src/protocol/serialization.ts:154-173 | the serialization with limits round-trips within its limit for reading, parses nothing beyond, and within it what the codec parses |
| EndToEnd.LimitedWrites | packages/connect/src/protocol/serialization.ts:154-173 | it writes what the codec writes, and a ResourceExhausted error if that exceeds the limit for writing |
| EndToEnd.FirstMisfit | packages/connect/src/protocol/async-iterable.ts:945-1076 | the first envelope that does not fit ends the stream, after all envelopes before it, be it too long on the wire or once decompressed |
| EndToEnd.Delivery | packages/connect/src/protocol-connect/handler-factory.ts:424-469 | for every ending, compression and re-chunking the client parses the messages and the server's end, if and only if every payload fits |
| EndToEnd.OversizeIsRefused | packages/connect/src/protocol-connect/transport.ts:248-293 | otherwise the application gets every message before the first envelope that does not fit, and then the error |
| EndToEnd.DeliveryWithBadEnd | packages/connect/src/protocol-connect/transport.ts:248-293 | if the end does not parse, every message still arrives, and then the parser's error |
| EndToEnd.ServerWithoutEnd | packages/connect/src/protocol/async-iterable.ts:665-691 | a callback that appends nothing, or fails: all messages are sent, and then the stream ends, or fails with the callback's error |
| EndToEnd.CutSplit | packages/connect/src/protocol/async-iterable.ts:1004-1076 | the first bytes of a stream split into its first envelopes, and never into all of them |
| EndToEnd.TruncationIsNoticed | packages/connect/src/protocol-connect/transport.ts:248-293 | if any bytes are missing at the end of a stream, the client does not finish normally, even if the body ends cleanly, and yields a prefix of the messages |
| StreamingCalls.ConnectEndToEnd | packages/connect/src/protocol-connect/handler-factory.ts:424-469 | the client yields exactly the handler's messages, and then finishes with its trailers, or throws its error with all metadata merged |
| StreamingCalls.ConnectOutcome | packages/connect/src/protocol-connect/handler-factory.ts:445-465 | by how the handler ended: the client always gets its messages, and ends normally with the trailers exactly if the handler ended normally or threw undefined; a foreign exception arrives as Internal (13), "internal error", without details, and a ConnectError with its code, message and details, if it survives the JSON form, and as InvalidArgument (3) otherwise |
| StreamingCalls.ParseConnectEnd | packages/connect/src/protocol-connect/end-stream.ts:137-167 | the client parses the end that the handler's callback made, or fails with InvalidArgument if the error does not survive |
| StreamingCalls.ParseGrpcWebEnd | packages/connect/src/protocol-grpc-web/handler-factory.ts:197-217 | the last envelope carries the trailer flag, no compression bit, and a block that parses to the final trailers |
| StreamingCalls.GrpcWebDelivers | packages/connect/src/protocol-grpc-web/handler-factory.ts:176-221 | the client yields the handler's messages, and then what the status in the final trailers says, whatever it is |
| StreamingCalls.GrpcWebEndToEnd | packages/connect/src/protocol-grpc-web/transport.ts:247-310 | with an initial OK status and no details header set: messages, then the trailers, or the error with code, message and details |
| StreamingCalls.GrpcWebOutcome | packages/connect/src/protocol-grpc-web/handler-factory.ts:197-217 | by how the handler ended: the client always gets its messages; it ends normally exactly if the handler ended normally, threw undefined, or threw an error with the code zero; a foreign exception arrives as Internal (13), "internal error", without details; a ConnectError arrives with code, message and details, if the status can carry them; an error without details and with a code beyond the enum arrives as Internal |
| StreamingCalls.ConsumeWhole | packages/connect/src/protocol-connect/transport.ts:260-293 | messages and one end are consumed completely |
| Requests.RequestDelivery | packages/connect/src/protocol-connect/transport.ts:225-236 | for every compression, re-chunking and ending of the body, the handler reads the application's messages and sees that ending, if and only if every payload fits |
| Requests.OversizeRequest | packages/connect/src/protocol-connect/handler-factory.ts:411-418 | otherwise it reads every message before the first that does not fit, and then the error |
| Requests.RequestCutPasses | packages/connect/src/protocol-connect/handler-factory.ts:411-418 | a truncated request passes for a whole one if and only if it is cut where an envelope ends; in any case a prefix of the messages is read |
| Requests.UnflaggedIsParsed | packages/connect/src/protocol/async-iterable.ts:919-935 | envelopes without the end flag are parsed in order up to the first that does not parse; without an end flag to look for, every envelope is, whatever its flags |
| Requests.FlaggedIsSkipped | packages/connect/src/protocol/async-iterable.ts:923-932 | an envelope with the end flag, wherever it is, makes no difference to a lenient handler |
| Requests.FlaggedIsRefused | packages/connect/src/protocol/async-iterable.ts:923-932 | with `null` for the serialization of ends, it raises an error after the envelopes before it, if those could be parsed |
| WritableIterable.ChannelRun | packages/connect/src/protocol/async-iterable.ts:1309-1424 | in every run, after every step, the queue is a first-in first-out channel |
| WritableIterable.ChannelMeaning | packages/connect/src/protocol/async-iterable.ts:1309-1424 | reads and writes are never both queued, no read is pending after a close, answers follow the order of writes, delivered and queued payloads are the accepted ones until throw or return, and "done" comes after all of them |
| WritableIterable.HistoryDecides | packages/connect/src/protocol/async-iterable.ts:1309-1424 | in every run, whatever the interleaving: read k is answered with write k if both were made before a stop, and the write before a close; all other reads are told "done" once the queue is closed, and wait until then |
| WritableIterable.NeverBothQueued | packages/connect/src/protocol/async-iterable.ts:1377-1381 | reads and writes are never both queued in any run if and only if undefined is never written |
| WritableIterable.ResolvesOnce | packages/connect/src/protocol/async-iterable.ts:1314-1424 | in every run, whatever is written, every read resolves at most once |
| WritableIterable.NothingIsLost | packages/connect/src/protocol/async-iterable.ts:1336-1393 | delivered and queued payloads are the accepted ones in all runs, short of throw and return, if and only if undefined is never written |
| WritableIterable.AcknowledgedWasDelivered | packages/connect/src/protocol/async-iterable.ts:1336-1420 | in every interleaving that writes no undefined, without next after throw or return, a write that fulfils has had its payload delivered to a read |
| WritableIterable.AcknowledgementIsSafe | packages/connect/src/protocol/async-iterable.ts:1336-1420 | this holds for all runs if and only if undefined is never written |
| WritableIterable.UndefinedIsLost | packages/connect/src/protocol/async-iterable.ts:1377-1391 | a run in which a written undefined is acknowledged, and delivered to no read |
| WritableIterable.AcksStep | packages/connect/src/protocol/async-iterable.ts:1336-1420 | every step keeps the relation between generations, suspended writes and deliveries |
| WritableIterable.UndeliveredWriteFails | packages/connect/src/protocol/async-iterable.ts:1394-1420 | after throw or return, a write that was not delivered fails within two resumptions |
| WritableIterable.NextAcknowledges | packages/connect/src/protocol/async-iterable.ts:1366-1383 | calls of next after a stop walk a suspended write to its acknowledgement, with nothing delivered |
| WritableIterable.FalseAcknowledgement | packages/connect/src/protocol/async-iterable.ts:1366-1420 | after a stop an undelivered write can still be acknowledged if and only if the generation it awaits was not rejected |
| WritableIterable.FalseAcknowledgementHappens | packages/connect/src/protocol/async-iterable.ts:1406-1420 | a run in which this happens |
| WritableIterable.OnlyStopsFail | packages/connect/src/protocol/async-iterable.ts:1394-1420 | in every run, whatever is written, no accepted write fails unless throw or return was called |
| WritableIterable.SuspendedGoesThrough | packages/connect/src/protocol/async-iterable.ts:1354-1362 | after any run without a stop, every suspended write is fulfilled by as many calls of next, each followed by its resumption, as it has awaits left |
| WritableIterable.WriteGoesThrough | packages/connect/src/protocol/async-iterable.ts:1340-1362 | a write handed to a read while more wait is fulfilled at once; handed to the last one it is fulfilled after exactly one round of next and resumption, and queued behind n others after exactly n + 2 |
| WritableIterable.LastAwait | packages/connect/src/protocol/async-iterable.ts:1359-1362 | a write on its last await is fulfilled by one next and its resumption, whatever else happens in between short of a stop |
| WritableIterable.StopsSettle | packages/connect/src/protocol/async-iterable.ts:1394-1420 | a stop settles every suspended write: return confirms those on their last await, throw only those about to resume, and all others fail |
| WritableIterable.Writable.constructor | packages/connect/src/protocol/async-iterable.ts:1314-1323 | the initial queues and the first generation |
| WritableIterable.Writable.Drain | packages/connect/src/protocol/async-iterable.ts:1326-1330 | every queued read is told "done", and no other |
| WritableIterable.Writable.CloseWriter | packages/connect/src/protocol/async-iterable.ts:1332-1335 | the step of close |
| WritableIterable.Writable.WritePayload | packages/connect/src/protocol/async-iterable.ts:1336-1359 | the step of write, of which the lemmas above tell the fate, and that it throws exactly when closed |
| WritableIterable.Writable.ResumeWriter | packages/connect/src/protocol/async-iterable.ts:1359-1362 | the step of a resumed write, which awaits the generation that is current when it resumes |
| WritableIterable.Writable.NextRead | packages/connect/src/protocol/async-iterable.ts:1366-1393 | the step of next |
| WritableIterable.Writable.ThrowInto | packages/connect/src/protocol/async-iterable.ts:1394-1405 | the step of throw |
| WritableIterable.Writable.ReturnFrom | packages/connect/src/protocol/async-iterable.ts:1406-1420 | the step of return |
| Http2Session.RegisterAccounts | packages/connect-node/src/http2-session-manager.ts:616-635 | registering a stream keeps count, reference and idle timer in order |
| Http2Session.StreamClosedAccounts | packages/connect-node/src/http2-session-manager.ts:616-635 | so does the close of a stream |
| Http2Session.RetiringAccounts | packages/connect-node/src/http2-session-manager.ts:665-806 | so do cleanup, leaving the state, and the idle timeout |
| Http2Session.AtMostOneTimer | packages/connect-node/src/http2-session-manager.ts:726-740 | at most one idle timer is outstanding |
| Http2Session.LeaveKeeps | packages/connect-node/src/http2-session-manager.ts:309-320 | once a state is left, no ready state may change the manager's state any more |
| Http2Session.SetStateKeeps | packages/connect-node/src/http2-session-manager.ts:300-352 | a change of state keeps the invariant of the manager |
| Http2Session.VerifiedKeeps | packages/connect-node/src/http2-session-manager.ts:483-506 | so does the re-entry of a ready state after verification |
| Http2Session.StepKeeps | packages/connect-node/src/http2-session-manager.ts:256-352 | so does every event, however stale the promise that settles |
| Http2Session.RunKeeps | packages/connect-node/src/http2-session-manager.ts:300-352 | the invariant holds in every run |
| Http2Session.RetiredNeverDisturb | packages/connect-node/src/http2-session-manager.ts:300-352 | after any run, close, error or idle timeout of a connection that is not current leaves the current state alone; the list of those shutting down has no duplicates, only receivers of GOAWAY, and never the current one |
| Http2Session.RequestGoesOn | packages/connect-node/src/http2-session-manager.ts:265-284 | after any run, a request reconnects, on a promise that nobody waited for, from closed, from error, and from a ready state with GOAWAY or a closed connection; it verifies any other ready state exactly if that is required; and it leaves a connection or verification under way alone |
| Http2Session.PromisesLead | packages/connect-node/src/http2-session-manager.ts:321-341 | what the settlement of a promise leads to after any run: a fresh connection, the verified one, a new attempt, or the closed or the error state |
| Http2Session.EventsAreRecorded | packages/connect-node/src/http2-session-manager.ts:582-806 | after any run and event, a connection is known as closed exactly if it was, closes, fails, or is closed by abort; as shutting down exactly if it ever received GOAWAY; and its open streams are those registered and not closed |
| Http2Session.CurrentDisturbs | packages/connect-node/src/http2-session-manager.ts:342-345 | after any run, close, error and GOAWAY of the current connection are noticed if and only if it was never re-entered after a verification; its idle timeout always is |
| Http2Session.RunHears | packages/connect-node/src/http2-session-manager.ts:665-676 | in every run, the manager listens to its current connection exactly if it was never re-entered |
| Http2Session.DeafAfterVerification | packages/connect-node/src/http2-session-manager.ts:483-506 | a run in which the current connection dies unheard |
| Http2Session.AbortClosesAll | packages/connect-node/src/http2-session-manager.ts:256-263 | after abort, no connection is open that was current, being verified, or shutting down, and the manager is closed or in error |
| Http2Session.GoAwayIsFinal | packages/connect-node/src/http2-session-manager.ts:309-341 | a connection that received GOAWAY and was left never becomes current again |
| Http2Session.RetiredIsListed | packages/connect-node/src/http2-session-manager.ts:309-320 | a connection enters the list of those shutting down exactly when it received GOAWAY and is left |
| Http2Session.RetiredLeaves | packages/connect-node/src/http2-session-manager.ts:309-320 | after any run, a connection that is shutting down leaves the list when it closes if and only if it was not its own close that put it there |
| Http2Session.LingeringStays | packages/connect-node/src/http2-session-manager.ts:309-320 | otherwise no event takes it off the list but an idle timeout of its own |
| Http2Session.RetiredLingers | packages/connect-node/src/http2-session-manager.ts:309-320 | a run in which a closed connection is left in the list |
| Http2Session.StreamsAreCounted | packages/connect-node/src/http2-session-manager.ts:582-806 | after any run the stream count is the number of open streams, the connection is referenced exactly when there are any, and an idle timer that can fire finds none |
| Http2Session.IdleTimerOutstanding | packages/connect-node/src/http2-session-manager.ts:616-740 | after any run, a connection without open streams has an idle timer outstanding if and only if none was taken from it since a stream of it last closed; the current one does, if it was never re-entered |
| Http2Session.NeverTimesOut | packages/connect-node/src/http2-session-manager.ts:820-828 | with a delay beyond 2^31 - 1 milliseconds there is no idle timer in any run |
| Http2Session.ReadyConnection.constructor | packages/connect-node/src/http2-session-manager.ts:582-602 | a new connection has no streams, no reference, and an idle timer |
| Http2Session.ReadyConnection.StartIdleTimer | packages/connect-node/src/http2-session-manager.ts:730-735 | a new idle timer, unless the delay is too large for one |
| Http2Session.ReadyConnection.StopIdleTimer | packages/connect-node/src/http2-session-manager.ts:726-728 | clears the timer last started, if it is outstanding |
| Http2Session.ReadyConnection.Open | packages/connect-node/src/http2-session-manager.ts:616-626 | the step of registering a stream |
| Http2Session.ReadyConnection.Close | packages/connect-node/src/http2-session-manager.ts:627-634 | the step of a stream's close |
| Http2Session.ReadyConnection.OnIdleTimeout | packages/connect-node/src/http2-session-manager.ts:737-740 | the idle timer closes a connection only if it has no open stream |
| Http2Session.Http2SessionManager.constructor | packages/connect-node/src/http2-session-manager.ts:158-176 | the manager starts closed, with nothing shutting down |
| Http2Session.Http2SessionManager.ChangeState | packages/connect-node/src/http2-session-manager.ts:300-352 | setState keeps the invariant, and does both of its halves |
| Http2Session.Http2SessionManager.GoToReady | packages/connect-node/src/http2-session-manager.ts:265-284 | the step of a request, which never leaves the manager closed or in error, and keeps a ready state only if it is neither shutting down nor closed nor to be verified |
| Http2Session.Http2SessionManager.OnConnectionClose | packages/connect-node/src/http2-session-manager.ts:777-781 | the close of a connection that is not current leaves the current state alone |
| Http2Session.Http2SessionManager.OnConnectionError | packages/connect-node/src/http2-session-manager.ts:782-798 | so does its error |
| Http2Session.Http2SessionManager.RemoveShuttingDown | packages/connect-node/src/http2-session-manager.ts:314-319 | takes the first occurrence off the list, if there is one |
| Negotiation.RequestHeaderWithCompression | packages/connect/src/protocol-connect/request-header.ts:75-104 | the encoding and accept headers of a request |
| Negotiation.RequestHeaderNames | packages/connect/src/protocol-connect/request-header.ts:75-104 | the encoding is named exactly if there is one to send with, the accepted ones exactly if there are any, and no other field is touched |
| Negotiation.CompressionNegotiate | packages/connect/src/protocol/compression.ts:60-107 | the loops compute the negotiated request and response compression, and the error |
| Negotiation.AcceptListRoundTrip | packages/connect/src/protocol-connect/request-header.ts:96-102 | the server splits the accept header into the client's names, in order |
| Negotiation.FirstAvailableIs | packages/connect/src/protocol/compression.ts:91-105 | the choice is the first of the listed names that the server has, or there is none |
| Negotiation.ResponseIsFirstChoice | packages/connect/src/protocol/compression.ts:91-105 | the response compression for every list of names, with or without white space around them, is the first that the server has; without a list it is that of the request |
| Negotiation.RequestIsNamed | packages/connect/src/protocol/compression.ts:73-90 | the request compression is none for a missing header or "identity", the one of that name, or an Unimplemented error that lists the available ones in its message and its metadata |
| Negotiation.NegotiationIsClosed | packages/connect/src/protocol/compression.ts:91-105 | with a non-empty accept list the client always finds the server's choice, so that no response encoding is unsupported |
| Negotiation.RequestIsUnderstood | packages/connect/src/protocol/compression.ts:76-89 | the server decodes with the compression that was sent, and fails with Unimplemented exactly when it does not have it |
| Negotiation.UnsupportedEncodingIff | packages/connect/src/protocol-connect/validate-response.ts:72-85 | the client meets an unsupported encoding, an InvalidArgument error, if and only if it accepts none but sends with one that the server has |
| Negotiation.IdentityInAnyCase | packages/connect/src/protocol-connect/validate-response.ts:72-85 | a response encoding "identity", in any case, means no compression |
| LinkedAbort.LinkedAbortCorrect | packages/connect/src/protocol/signals.ts:29-56 | in every run, once events have arrived: aborted if and only if a source is or abort() was called, with the very reason that the first cause had, or an AbortError if it had none, and no listener left |
| LinkedAbort.AlreadyAborted | packages/connect/src/protocol/signals.ts:38-44 | of several sources aborted from the start the first one counts, with its own reason, and no listener stays |
| LinkedAbort.CreateKeeps | packages/connect/src/protocol/signals.ts:29-44 | a new controller meets the relation between listeners, causes, and the reason of the first of them |
| LinkedAbort.StepKeeps | packages/connect/src/protocol/signals.ts:46-53 | every event keeps the relation between listeners, causes and the controller, whose reason is that of the first cause |
| LinkedAbort.LinkedAbortController.constructor | packages/connect/src/protocol/signals.ts:29-44 | listens to every source, or is aborted with the first aborted one and listens to none |
| LinkedAbort.LinkedAbortController.HandleAbort | packages/connect/src/protocol/signals.ts:46-53 | through its own re-entry: aborts once, with the right reason, and removes all listeners |
| ReplaceDependencies.ReplaceEntries | packages/connect-migrate/src/lib/replace-dependencies.ts:44-70 | the innermost loop, in any order of entries, is one replacement |
| ReplaceDependencies.ReplaceDependencies | packages/connect-migrate/src/lib/replace-dependencies.ts:29-94 | the nested loops apply the whole table, rename bundled names and what is said of peer dependencies, and return null when nothing matched |
| ReplaceDependencies.MoveEntries | packages/connect-migrate/src/lib/replace-dependencies.ts:81-92 | the loop over the entries of peerDependenciesMeta, as they were listed before it |
| ReplaceDependencies.ReplaceAllEvolves | packages/connect-migrate/src/lib/replace-dependencies.ts:37-72 | entries under names outside the table stay, targets never go, and nothing goes without its target |
| ReplaceDependencies.SettledStays | packages/connect-migrate/src/lib/replace-dependencies.ts:37-72 | later replacements never create what an earlier one would match, unless they move to its source |
| ReplaceDependencies.MigrationIsIdempotent | packages/connect-migrate/src/lib/replace-dependencies.ts:29-94 | if no replacement moves to a source of itself or of an earlier one, none matches the result, and a second run returns null |
| ReplaceDependencies.IdempotentIff | packages/connect-migrate/src/lib/replace-dependencies.ts:29-94 | for tables with distinct sources, migration is idempotent on every package if and only if this is so |
| ReplaceDependencies.NothingElseChanges | packages/connect-migrate/src/lib/replace-dependencies.ts:37-72 | with targets set and apart from sources, no dependency is lost, and none is touched beyond source and target names |
| ReplaceDependencies.BundledFollow | packages/connect-migrate/src/lib/replace-dependencies.ts:73-80 | a bundled name whose entry was dropped is replaced with the target of a replacement of it, and the lists keep their length and other names |
| ReplaceDependencies.MetaFollows | packages/connect-migrate/src/lib/replace-dependencies.ts:81-92 | what is said of a peer dependency moves to the target of a dropped entry, and stays under names outside the table |
| ReplaceDependencies.MoveMetaIs | packages/connect-migrate/src/lib/replace-dependencies.ts:81-92 | after the loop, a name that was replaced says nothing, and a target what the last entry moved to it said |
| ReplaceDependencies.MovedAdmitsVersion | packages/connect-migrate/src/lib/replace-dependencies.ts:50-70 | every dependency that was moved has its target in the result, under a range that admits the version moved to, if replacements with the same target agree on it |
| ReplaceDependencies.SingleReplacement | packages/connect-migrate/src/lib/replace-dependencies.ts:43-70 | one replacement: every matching entry moves to the target, with its range if that admits the new version, and the new version with a caret otherwise; every other entry stays; it fails exactly if a range under the name cannot be parsed |
| ReplaceDependencies.NullIff | packages/connect-migrate/src/lib/replace-dependencies.ts:93 | null is returned exactly if no replacement matches any dependency, and all ranges can be parsed |
| ReplaceDependencies.InPlaceReplacementRepeats | packages/connect-migrate/src/lib/replace-dependencies.ts:50-70 | a single replacement is idempotent if and only if it changes the name |
| ReplaceDependencies.ShippedTableIsSeparated | packages/connect-migrate/src/migrations/v0.13.1.ts:40-126 | the shipped table meets the conditions: no target is a source, and so migration is idempotent |
| ReplaceDependencies.ShippedVersionsAgree | packages/connect-migrate/src/migrations/v0.13.1.ts:29-126 | the shipped table names one version for each target |
| NodeError.UnwrapNodeErrorChain | packages/connect-node/src/node-error.ts:74-92 | the chain holds the error and every direct or indirect cause, each once and in order, even when causes form a cycle |
| NodeError.EndsOrRepeats | packages/connect-node/src/node-error.ts:80-83 | the walk stops at an error that has a cause if and only if the causes go on for ever |
| NodeError.CodeFromNodeReason | packages/connect-node/src/node-error.ts:22-61 | a ConnectError keeps its code, and an AbortError means Canceled (1); otherwise the listed codes of all causes at any depth decide, with Aborted (10) before Unavailable (14) before Internal (13) |
| Js.StripFixpoint | packages/connect/src/protocol-grpc-web/trailer.ts:41-42 | trimming leaves exactly the trimmed strings alone |
| Js.SplitJoin | packages/connect/src/protocol/compression.ts:95 | splitting undoes joining when no part holds the separator |
| Js.ParseIntNat | packages/connect/src/protocol/async-iterable.ts:1144-1145 | parseInt undoes toString on every natural number |
| Js.ParseIntOf | packages/connect/src/protocol/async-iterable.ts:1144-1145 | parseInt reads a sign and digits, and ignores what follows them |

## Left out

Weaker than the source, or with an assumption:

- Negotiation.UnsupportedEncodingIff: assumes that the caller's own headers do not already name an encoding.
- StreamingCalls.ConnectEndToEnd: the text inside "failed to parse EndStreamResponse" is that of the modelled error, header fields must be valid, as those of a Headers object are, and debug values must be ones that JSON can carry.
- StreamingCalls.GrpcWebEndToEnd: assumes an error that the gRPC status can carry, and trailers as the handler creates them; `GrpcWebDelivers` has neither assumption.
- StreamingCalls.GrpcWebOutcome: says of an error with details that the status cannot carry only its code, unless that is zero.
- EndToEnd.Delivery: assumes payloads below 2^32 on the wire; `ReadU32OfU32` shows what happens to longer ones.
- Http2Session.Http2SessionManager.ChangeState: ready states are values at fixed positions of a list, not shared objects, and `ReadyConnection` is a class of its own.
- Http2Session.Http2SessionManager.GoToReady: the loop that awaits the new state, and whether it ends, is not modelled; nor is the retry loop of `request`.
- LinkedAbort.LinkedAbortCorrect: other listeners may run between an abort and the arrival of its event, as events of their own; the order of listeners on one signal is not modelled.
- WritableIterable.AcknowledgedWasDelivered: which error a failed write carries is not modelled.

Not modelled:

- Pings of an HTTP/2 connection, the time of the last read, and verification by PING: whether a ready state requires verification is an input of `GoToReady`.
- GOAWAY with no open streams, which destroys the connection in recent versions of Node.js: the close of the connection is an event of its own.
- Events that Node.js emits synchronously inside `abort`: they are later events.
- Headers of the Fetch API beyond names and combined values: the special treatment of `set-cookie`, and the sorted order of iteration (results hold for every order).
- Names that a plain object inherits, in the look-up of codes.
- Codes of errors beyond 32 bits, and strings with lone surrogates.
- `toLowerCase` beyond ASCII.
- Promise scheduling: streams are what a consumer that reads to the end observes, so back pressure, cancelation by the consumer (`propagateDownStreamError`, `makeIterableAbortable`, `untilFirst`) and the abort of the handler's context have no counterpart.
- Errors of compression itself and of the serialization of an EndStreamResponse.
- Protobuf, JSON text, base64, UTF-8, percent coding, zlib and semver: parameters with stated laws.
- Unary calls other than the gRPC-web sink, interceptors, content types, status codes, timeouts, routing, and the packages for browsers and servers.
- `connectErrorFromH2ResetCode` and other finite tables.
