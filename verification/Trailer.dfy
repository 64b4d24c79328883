/** The gRPC-web trailer: a block of header fields, and the gRPC status among them. */
module Trailers {
  import opened Base
  import opened Js
  import opened Http
  import opened EndStreams
  import opened Pipeline

  /** Bit 7 of the flags: the payload is a block of trailers. */
  const TRAILER_FLAG: byte := 0x80

  /** TextDecoder takes one byte order mark off the start of a text. */
  function WithoutBom(s: string): string {
    if s != [] && s[0] as int == 0xFEFF then s[1..] else s
  }

  /** TextEncoder and TextDecoder. */
  datatype Utf8 = Utf8(encode: string -> seq<byte>, decode: seq<byte> -> string) {
    ghost predicate Lawful() {
      forall s :: decode(encode(s)) == WithoutBom(s)
    }
  }

  // ---- the block ---------------------------------------------------------

  function Line(name: string, value: string): string {
    name + ": " + value
  }

  function TrailerText(order: seq<string>, h: Headers): string
    requires forall k :: k in order ==> k in h
  {
    if order == [] then [] else Line(order[0], h[order[0]]) + "\r\n" + TrailerText(order[1..], h)
  }

  method TrailerSerialize(order: seq<string>, h: Headers, utf8: Utf8) returns (data: seq<byte>)
    requires forall k :: k in order ==> k in h
    ensures data == utf8.encode(TrailerText(order, h))
  {
    var lines: seq<string> := [];
    for i := 0 to |order|
      invariant Flatten(lines) + TrailerText(order[i..], h) == TrailerText(order, h)
    {
      var line := Line(order[i], h[order[i]]) + "\r\n";
      assert order[i..][0] == order[i] && order[i..][1..] == order[i + 1..];
      ConcatAssociates(Flatten(lines), line, TrailerText(order[i + 1..], h));
      FlattenSnoc(lines, line);
      lines := lines + [line];
    }
    assert order[|order|..] == [] && Flatten(lines) + [] == Flatten(lines);
    return utf8.encode(Flatten(lines));
  }

  function ParseLine(h: Headers, line: string): Result<Headers, Thrown> {
    var i := IndexOf(line, ":");
    if line == "" || i <= 0 then Ok(h) else Append(h, Trim(line[..i]), Trim(line[i + 1..]))
  }

  function ParseLines(h: Headers, lines: seq<string>): Result<Headers, Thrown>
    decreases |lines|
  {
    if lines == [] then Ok(h)
    else match ParseLine(h, lines[0])
      case Ok(h') => ParseLines(h', lines[1..])
      case Err(reason) => Err(reason)
  }

  function ParseText(text: string): Result<Headers, Thrown> {
    ParseLines(map[], Js.Split(text, "\r\n"))
  }

  lemma ParseLinesStep(h: Headers, lines: seq<string>, n: nat)
    requires n < |lines|
    ensures ParseLines(h, lines[n..])
         == match ParseLine(h, lines[n])
            case Ok(h') => ParseLines(h', lines[n + 1..])
            case Err(reason) => Err(reason)
  {
    assert lines[n..][1..] == lines[n + 1..];
  }

  method TrailerParse(data: seq<byte>, utf8: Utf8) returns (r: Result<Headers, Thrown>)
    ensures r == ParseText(utf8.decode(data))
  {
    var headers: Headers := map[];
    var lines := Js.Split(utf8.decode(data), "\r\n");
    for n := 0 to |lines|
      invariant ParseLines(map[], lines) == ParseLines(headers, lines[n..])
    {
      var line := lines[n];
      ParseLinesStep(headers, lines, n);
      if line == "" {
        continue;
      }
      var i := IndexOf(line, ":");
      if i > 0 {
        var appended := Append(headers, Trim(line[..i]), Trim(line[i + 1..]));
        if appended.Err? {
          return Err(appended.error);
        }
        headers := appended.value;
      }
    }
    assert lines[|lines|..] == [];
    return Ok(headers);
  }

  // ---- round trip of the block -------------------------------------------

  /** What arrives of a set of fields: every value with the white space that String.trim knows taken off its ends. */
  function TrimAll(h: Headers): Headers {
    map k | k in h :: Trim(h[k])
  }

  lemma TrimAllWellFormed(h: Headers)
    requires WellFormed(h)
    ensures WellFormed(TrimAll(h)) && Copy(TrimAll(h)) == TrimAll(h)
  {
    forall k | k in h ensures IsFieldValue(Trim(h[k])) && Normalize(Trim(h[k])) == Trim(h[k]) {
      StripFixpoint(IsSpace, h[k]);
    }
  }

  lemma NameIsTrimmed(name: string)
    requires IsToken(name)
    ensures Trim(name) == name && ':' !in name && '\r' !in name
  {
    assert IsTokenChar(name[0]) && IsTokenChar(name[|name| - 1]);
    StripFixpoint(IsSpace, name);
  }

  lemma ParseOwnLine(acc: Headers, name: string, value: string)
    requires IsToken(name)
    ensures ParseLine(acc, Line(name, value)) == Append(acc, name, Trim(value))
  {
    NameIsTrimmed(name);
    var line := Line(name, value);
    assert line == name + ":" + (" " + value);
    IndexOfAfter(name, ":", " " + value);
    assert line[..|name|] == name && line[|name| + 1..] == " " + value;
    StripLeadingSpace(IsSpace, value);
  }

  lemma SplitOwnLine(name: string, value: string, rest: string)
    requires IsToken(name) && IsFieldValue(value)
    ensures Js.Split(Line(name, value) + "\r\n" + rest, "\r\n") == [Line(name, value)] + Js.Split(rest, "\r\n")
  {
    NameIsTrimmed(name);
    assert '\r' !in ": ";
    SplitStep(Line(name, value), "\r\n", rest);
  }

  /** A block of lines for the given fields, in which names may repeat. */
  function LinesOf(fields: seq<(string, string)>): string {
    if fields == [] then [] else fields[0].0 + ": " + fields[0].1 + "\r\n" + LinesOf(fields[1..])
  }

  function Trimmed(fields: seq<(string, string)>): (r: seq<(string, string)>)
    ensures |r| == |fields| && forall i :: 0 <= i < |r| ==> r[i] == (fields[i].0, Trim(fields[i].1))
  {
    seq(|fields|, i requires 0 <= i < |fields| => (fields[i].0, Trim(fields[i].1)))
  }

  predicate AreLines(fields: seq<(string, string)>) {
    forall i :: 0 <= i < |fields| ==> IsToken(fields[i].0) && IsFieldValue(fields[i].1)
  }

  lemma {:induction false} ParseFields(acc: Headers, fields: seq<(string, string)>)
    requires AreLines(fields)
    ensures ParseLines(acc, Js.Split(LinesOf(fields), "\r\n")) == AppendList(acc, Trimmed(fields))
    decreases |fields|
  {
    if fields == [] {
      assert Js.Split([], "\r\n") == [""];
      assert [""][1..] == [];
    } else {
      var (name, value) := fields[0];
      SplitOwnLine(name, value, LinesOf(fields[1..]));
      ParseOwnLine(acc, name, value);
      assert Trimmed(fields)[1..] == Trimmed(fields[1..]);
      var appended := Append(acc, name, Trim(value));
      if appended.Ok? {
        ParseFields(appended.value, fields[1..]);
      }
    }
  }

  lemma TrimmedAreFields(fields: seq<(string, string)>)
    requires AreLines(fields)
    ensures forall i :: 0 <= i < |fields| ==> IsField(Trimmed(fields)[i])
  {
    forall i | 0 <= i < |fields| ensures IsField(Trimmed(fields)[i]) {
      StripFixpoint(IsSpace, fields[i].1);
      NormalizedIsFieldValue(Trim(fields[i].1));
    }
  }

  /** A block by others, in which names may repeat, in any case: a name holds all values for it, trimmed and
      behind each other in the order of the lines. */
  lemma TrailersByOthers(fields: seq<(string, string)>, name: string)
    requires AreLines(fields)
    ensures ParseText(LinesOf(fields)).Ok?
    ensures Held(ParseText(LinesOf(fields)).value, name) == JoinedTo(None, ValuesFor(Trimmed(fields), name))
  {
    ParseFields(map[], fields);
    TrimmedAreFields(fields);
    AppendListHolds(map[], Trimmed(fields), name);
  }

  /** A line that is empty, or has no name before a colon, is passed over. */
  lemma LineIsPassedOver(h: Headers, line: string)
    requires ':' !in line || line[0] == ':'
    ensures ParseLine(h, line) == Ok(h)
  {
    if ':' !in line {
      IndexOfAbsent(line, ":");
    } else {
      assert line[..1] == ":";
    }
  }

  lemma {:induction false} OwnLines(order: seq<string>, h: Headers)
    requires forall k :: k in order ==> k in h
    ensures TrailerText(order, h) == LinesOf(Entries(order, h))
    decreases |order|
  {
    if order != [] {
      OwnLines(order[1..], h);
      assert Entries(order, h)[1..] == Entries(order[1..], h);
    }
  }

  lemma ParseOwnText(acc: Headers, order: seq<string>, h: Headers)
    requires WellFormed(h) && Lists(order, h)
    ensures ParseLines(acc, Js.Split(TrailerText(order, h), "\r\n")) == AppendList(acc, Entries(order, TrimAll(h)))
  {
    OwnLines(order, h);
    forall i | 0 <= i < |order| ensures IsToken(order[i]) && IsFieldValue(h[order[i]]) {
      assert order[i] in order;
    }
    ParseFields(acc, Entries(order, h));
    assert Trimmed(Entries(order, h)) == Entries(order, TrimAll(h));
  }

  /** Parsing a serialized trailer gives the trailer back, with every value trimmed, in whatever order it was written. */
  lemma TrailerRoundTrip(order: seq<string>, h: Headers)
    requires WellFormed(h) && Enumerates(order, h)
    ensures ParseText(TrailerText(order, h)) == Ok(TrimAll(h))
  {
    ParseOwnText(map[], order, h);
    TrimAllWellFormed(h);
    AppendEntries(map[], TrimAll(h), order);
    CopyIsAppend(TrimAll(h));
  }

  /** A trailer comes back unchanged exactly when none of its values starts or ends with white space. */
  lemma TrailerUnchanged(order: seq<string>, h: Headers)
    requires WellFormed(h) && Enumerates(order, h)
    ensures ParseText(TrailerText(order, h)) == Ok(h) <==> forall k :: k in h ==> Stripped(IsSpace, h[k])
  {
    TrailerRoundTrip(order, h);
    var trimmed := TrimAll(h);
    forall k | k in h ensures trimmed[k] == h[k] <==> Stripped(IsSpace, h[k]) {
      StripFixpoint(IsSpace, h[k]);
    }
    if forall k :: k in h ==> Stripped(IsSpace, h[k]) {
      assert trimmed == h;
    }
  }

  // ---- the status --------------------------------------------------------

  const GRPC_STATUS := "grpc-status"
  const GRPC_MESSAGE := "grpc-message"
  const STATUS_DETAILS := "grpc-status-details-bin"
  const GRPC_STATUS_OK := "0"

  datatype Any = Any(typeUrl: string, value: seq<byte>)

  /** google.rpc.Status */
  datatype Status = Status(code: Int32, message: string, details: seq<Any>)

  function DecodedAll(details: seq<Any>): (r: seq<Any>)
    ensures |r| == |details|
    ensures forall i :: 0 <= i < |r| ==> r[i] == Any(WithoutBom(details[i].typeUrl), details[i].value)
  {
    seq(|details|, i requires 0 <= i < |details| => Any(WithoutBom(details[i].typeUrl), details[i].value))
  }

  /** What a status is after its binary form was parsed: protobuf decodes strings with TextDecoder. */
  function Decoded(s: Status): Status {
    Status(s.code, WithoutBom(s.message), DecodedAll(s.details))
  }

  /** Percent coding of messages, and the binary header coding of a status. Decoding may raise an error. */
  datatype StatusCodec = StatusCodec(
    encodeURIComponent: string -> string,
    decodeURIComponent: string -> Result<string, Thrown>,
    encodeBinary: Status -> string,
    decodeBinary: string -> Result<Status, Thrown>)
  {
    ghost predicate Lawful() {
      && (forall s :: decodeURIComponent(encodeURIComponent(s)) == Ok(s))
      && (forall s :: decodeBinary(encodeBinary(s)) == Ok(Decoded(s)))
      && (forall s :: Stripped(IsSpace, encodeURIComponent(s)) && IsFieldValue(encodeURIComponent(s)))
      && (forall s :: Stripped(IsSpace, encodeBinary(s)) && IsFieldValue(encodeBinary(s)))
    }
  }

  const TYPE_URL_PREFIX := "type.googleapis.com/"

  function Pack(d: Detail): Any {
    Any(TYPE_URL_PREFIX + d.typeName, d.payload)
  }

  function PackAll(details: seq<Detail>): (r: seq<Any>)
    ensures |r| == |details| && forall i :: 0 <= i < |r| ==> r[i] == Pack(details[i])
  {
    seq(|details|, i requires 0 <= i < |details| => Pack(details[i]))
  }

  /** `s.substring(s.lastIndexOf("/") + 1)` */
  function LastSegment(s: string): string
    decreases |s|
  {
    if s == [] then [] else if s[|s| - 1] == '/' then [] else LastSegment(s[..|s| - 1]) + [s[|s| - 1]]
  }

  function Unpack(a: Any): Detail {
    IncomingDetail(LastSegment(a.typeUrl), a.value, None)
  }

  function UnpackAll(details: seq<Any>): (r: seq<Detail>)
    ensures |r| == |details| && forall i :: 0 <= i < |r| ==> r[i] == Unpack(details[i])
  {
    seq(|details|, i requires 0 <= i < |details| => Unpack(details[i]))
  }

  function Set(h: Headers, name: string, value: string): Headers {
    h[name := Normalize(value)]
  }

  function IntToString(n: int): string {
    if n < 0 then "-" + NatToString(-n) else NatToString(n)
  }

  /** setTrailerStatus: a details header is written only for an error with details, and never removed. */
  function SetTrailerStatus(target: Headers, error: Option<ConnectError>, codec: StatusCodec): Headers {
    match error
    case None => Set(target, GRPC_STATUS, GRPC_STATUS_OK)
    case Some(e) =>
      var h := Set(Set(target, GRPC_STATUS, IntToString(e.code)), GRPC_MESSAGE, codec.encodeURIComponent(e.message));
      if |e.details| > 0 then
        Set(h, STATUS_DETAILS, codec.encodeBinary(Status(e.code, e.message, PackAll(e.details))))
      else h
  }

  method WriteTrailerStatus(target: Headers, error: Option<ConnectError>, codec: StatusCodec) returns (h: Headers)
    ensures h == SetTrailerStatus(target, error, codec)
    ensures forall k :: k in target && k !in {GRPC_STATUS, GRPC_MESSAGE, STATUS_DETAILS} ==> k in h && h[k] == target[k]
  {
    h := target;
    if error.Some? {
      h := Set(h, GRPC_STATUS, IntToString(error.value.code));
      h := Set(h, GRPC_MESSAGE, codec.encodeURIComponent(error.value.message));
      if |error.value.details| > 0 {
        var status := Status(error.value.code, error.value.message, PackAll(error.value.details));
        h := Set(h, STATUS_DETAILS, codec.encodeBinary(status));
      }
    } else {
      h := Set(h, GRPC_STATUS, GRPC_STATUS_OK);
    }
  }

  /** findTrailerError: prefers the binary status to the plain one. */
  function FindTrailerError(h: Headers, codec: StatusCodec): Result<Option<ConnectError>, Thrown> {
    if STATUS_DETAILS in h then
      match codec.decodeBinary(h[STATUS_DETAILS])
      case Err(reason) => Err(reason)
      case Ok(status) =>
        if status.code == 0 then Ok(None)
        else Ok(Some(ConnectError(status.code, status.message, Copy(h), UnpackAll(status.details))))
    else if GRPC_STATUS in h then
      if h[GRPC_STATUS] == GRPC_STATUS_OK then Ok(None)
      else
        var code := ParseInt(h[GRPC_STATUS]);
        if code.Some? && IsCode(code.value) then
          match codec.decodeURIComponent(if GRPC_MESSAGE in h then h[GRPC_MESSAGE] else "")
          case Ok(message) => Ok(Some(ConnectError(code.value, message, Copy(h), [])))
          case Err(reason) => Err(reason)
        else Ok(Some(ConnectError(INTERNAL, "invalid grpc-status: " + h[GRPC_STATUS], Copy(h), [])))
    else Ok(None)
  }

  /** What the status says, without details: there is no error exactly if the status is missing or "0"; a code of the
      enum is that of an error, with the decoded message; and any other status is an internal error. */
  lemma StatusMeans(h: Headers, codec: StatusCodec)
    requires STATUS_DETAILS !in h
    ensures
      var r := FindTrailerError(h, codec);
      && (r == Ok(None) <==> GRPC_STATUS !in h || h[GRPC_STATUS] == "0")
      && (GRPC_STATUS in h && h[GRPC_STATUS] != "0" ==>
            match ParseInt(h[GRPC_STATUS])
            case Some(code) =>
              if 1 <= code <= 16 then
                match codec.decodeURIComponent(if GRPC_MESSAGE in h then h[GRPC_MESSAGE] else "")
                case Ok(message) => r == Ok(Some(ConnectError(code, message, Copy(h), [])))
                case Err(reason) => r == Err(reason)
              else r == Ok(Some(ConnectError(13, "invalid grpc-status: " + h[GRPC_STATUS], Copy(h), [])))
            case None => r == Ok(Some(ConnectError(13, "invalid grpc-status: " + h[GRPC_STATUS], Copy(h), []))))
  {
  }

  /** With details, they decide alone: there is no error exactly if their code is zero, and an error has their code, their
      message, and as many details as they list. */
  lemma DetailsMean(h: Headers, codec: StatusCodec)
    requires STATUS_DETAILS in h
    ensures
      var r := FindTrailerError(h, codec);
      match codec.decodeBinary(h[STATUS_DETAILS])
      case Err(reason) => r == Err(reason)
      case Ok(status) =>
        && (r == Ok(None) <==> status.code == 0)
        && (status.code != 0 ==>
              && r.Ok? && r.value.Some? && r.value.value.code == status.code && r.value.value.message == status.message
              && r.value.value.metadata == Copy(h) && |r.value.value.details| == |status.details|)
  {
  }

  /** The status of a call by others, for example one that ended with a code that is not in the enum. */
  lemma UnknownStatusIsInternal(codec: StatusCodec)
    ensures
      var h: Headers := map["grpc-status" := "17"];
      FindTrailerError(h, codec) == Ok(Some(ConnectError(13, "invalid grpc-status: 17", Copy(h), [])))
  {
    var h: Headers := map["grpc-status" := "17"];
    assert |STATUS_DETAILS| != |GRPC_STATUS| && STATUS_DETAILS !in h;
    ParseIntNat(17);
    assert NatToString(17) == NatToString(1) + [DigitChar(7)] == "17";
    assert h[GRPC_STATUS] == "17";
    StatusMeans(h, codec);
    assert |h[GRPC_STATUS]| != |"0"|;
    assert "invalid grpc-status: " + "17" == "invalid grpc-status: 17";
  }

  // ---- round trip of the status ------------------------------------------

  lemma {:induction false} LastSegmentOf(prefix: string, name: string)
    requires prefix != [] && prefix[|prefix| - 1] == '/' && '/' !in name
    ensures LastSegment(prefix + name) == name
    decreases |name|
  {
    var s := prefix + name;
    if name == [] {
      assert s == prefix;
    } else {
      assert s[..|s| - 1] == prefix + name[..|name| - 1];
      LastSegmentOf(prefix, name[..|name| - 1]);
    }
  }

  lemma {:induction false} LastSegmentIsPlain(s: string)
    ensures '/' !in LastSegment(s)
    decreases |s|
  {
    if s != [] && s[|s| - 1] != '/' {
      LastSegmentIsPlain(s[..|s| - 1]);
    }
  }

  predicate PlainTypeNames(e: ConnectError) {
    forall i :: 0 <= i < |e.details| ==> '/' !in e.details[i].typeName
  }

  /** The type name of a detail comes back exactly when it has no slash. */
  lemma DetailsThroughStatus(details: seq<Detail>)
    ensures UnpackAll(PackAll(details)) == WithoutDebug(details)
       <==> forall i :: 0 <= i < |details| ==> '/' !in details[i].typeName
  {
    var unpacked := UnpackAll(PackAll(details));
    forall i | 0 <= i < |details|
      ensures unpacked[i] == WithoutDebug(details)[i] <==> '/' !in details[i].typeName
    {
      LastSegmentIsPlain(TYPE_URL_PREFIX + details[i].typeName);
      if '/' !in details[i].typeName {
        LastSegmentOf(TYPE_URL_PREFIX, details[i].typeName);
      }
    }
    if forall i :: 0 <= i < |details| ==> '/' !in details[i].typeName {
      assert unpacked == WithoutDebug(details);
    }
  }

  function WithoutDebug(details: seq<Detail>): (r: seq<Detail>)
    ensures |r| == |details| && forall i :: 0 <= i < |r| ==> r[i] == IncomingDetail(details[i].typeName, details[i].payload, None)
  {
    seq(|details|, i requires 0 <= i < |details| => IncomingDetail(details[i].typeName, details[i].payload, None))
  }

  lemma NatToStringIsTrimmed(n: nat)
    ensures Stripped(IsSpace, NatToString(n)) && IsFieldValue(NatToString(n))
  {
  }

  lemma IntToStringIsTrimmed(n: int)
    ensures Stripped(IsSpace, IntToString(n)) && IsFieldValue(IntToString(n))
  {
    NatToStringIsTrimmed(if n < 0 then -n else n);
  }

  /** The three status fields as SetTrailerStatus leaves them: nothing is lost to normalization or trimming. */
  lemma StatusFields(target: Headers, e: ConnectError, codec: StatusCodec)
    requires codec.Lawful()
    ensures
      var h := TrimAll(SetTrailerStatus(target, Some(e), codec));
      && GRPC_STATUS in h && h[GRPC_STATUS] == IntToString(e.code)
      && GRPC_MESSAGE in h && h[GRPC_MESSAGE] == codec.encodeURIComponent(e.message)
      && (|e.details| > 0 ==> STATUS_DETAILS in h)
      && (|e.details| > 0 ==> h[STATUS_DETAILS] == codec.encodeBinary(Status(e.code, e.message, PackAll(e.details))))
      && (|e.details| == 0 ==> (STATUS_DETAILS in h <==> STATUS_DETAILS in target))
  {
    IntToStringIsTrimmed(e.code);
    StrippedStays(IntToString(e.code));
    StrippedStays(codec.encodeURIComponent(e.message));
    StrippedStays(codec.encodeBinary(Status(e.code, e.message, PackAll(e.details))));
  }

  lemma StrippedStays(value: string)
    requires Stripped(IsSpace, value)
    ensures Normalize(value) == value && Trim(value) == value && Trim(Normalize(value)) == value
  {
  }

  /** Which numbers the client accepts as a status: it reads a code exactly when it is one of the enum, and
      takes no other number than zero for success. */
  lemma CodeThroughStatus(code: int)
    ensures IntToString(code) == GRPC_STATUS_OK <==> code == 0
    ensures IsCode(code) ==> ParseInt(IntToString(code)) == Some(code)
    ensures ParseInt(IntToString(code)).Some? && IsCode(ParseInt(IntToString(code)).value) ==> IsCode(code)
  {
    ParseIntNat(0);
    assert NatToString(0) == [DigitChar(0)] == GRPC_STATUS_OK;
    if code >= 0 {
      ParseIntNat(code);
    } else {
      assert IntToString(code)[0] == '-';
      assert StripStart(IsSpace, IntToString(code)) == IntToString(code);
    }
  }

  /** Which errors the gRPC status can carry: with details any code but zero, and a message that does not start with a
      byte order mark; without details the codes of the enum; and no detail whose type name contains a slash. */
  predicate StatusCarries(e: ConnectError) {
    (if |e.details| > 0 then e.code != 0 && WithoutBom(e.message) == e.message else IsCode(e.code)) && PlainTypeNames(e)
  }

  lemma PackedIsDecoded(details: seq<Detail>)
    ensures DecodedAll(PackAll(details)) == PackAll(details)
  {
    assert TYPE_URL_PREFIX[0] == 't';
  }

  /** A block of trailers is empty, or starts with a name. */
  lemma TrailerHasNoBom(order: seq<string>, h: Headers)
    requires WellFormed(h) && forall k :: k in order ==> k in h
    ensures WithoutBom(TrailerText(order, h)) == TrailerText(order, h)
  {
    if order != [] {
      assert order[0] in h && IsTokenChar(order[0][0]);
      assert TrailerText(order, h)[0] == order[0][0];
    }
  }

  /** The client finds the error that the server set, with all of the trailer as its metadata. */
  ghost predicate Recovers(target: Headers, e: ConnectError, codec: StatusCodec) {
    var h := TrimAll(SetTrailerStatus(target, Some(e), codec));
    FindTrailerError(h, codec) == Ok(Some(ConnectError(e.code, e.message, Copy(h), WithoutDebug(e.details))))
  }

  /** The client recovers code, message and ordered details from the trailer exactly when the status can carry
      them, as long as the error has details or the trailers did not already hold a details header. */
  lemma StatusRoundTrip(target: Headers, e: ConnectError, codec: StatusCodec)
    requires codec.Lawful() && (|e.details| > 0 || STATUS_DETAILS !in target)
    ensures Recovers(target, e, codec) <==> StatusCarries(e)
  {
    StatusFields(target, e, codec);
    if |e.details| > 0 {
      PackedIsDecoded(e.details);
      DetailsThroughStatus(e.details);
    } else {
      assert WithoutDebug(e.details) == [];
      CodeThroughStatus(e.code);
    }
  }

  const BOM_AND_X := "\U{FEFF}x"

  /** A byte order mark at the start of a message is lost on its way through the status details. */
  lemma BomIsLost(detail: Detail, codec: StatusCodec)
    requires codec.Lawful() && '/' !in detail.typeName
    ensures
      var error := ConnectError(INTERNAL, BOM_AND_X, map[], [detail]);
      var h := TrimAll(SetTrailerStatus(map[], Some(error), codec));
      FindTrailerError(h, codec) == Ok(Some(ConnectError(INTERNAL, "x", Copy(h), WithoutDebug([detail]))))
  {
    var error := ConnectError(INTERNAL, BOM_AND_X, map[], [detail]);
    var h := TrimAll(SetTrailerStatus(map[], Some(error), codec));
    StatusFields(map[], error, codec);
    PackedIsDecoded([detail]);
    DetailsThroughStatus([detail]);
    assert WithoutBom(BOM_AND_X) == "x";
  }

  /** A details header that is in the trailers already decides alone: errors without details arrive for every code
      and message if and only if there is none. */
  lemma StaleDetailsWin(target: Headers, codec: StatusCodec)
    requires codec.Lawful()
    ensures (forall code: Int32, message :: IsCode(code) ==> Recovers(target, ConnectError(code, message, map[], []), codec))
       <==> STATUS_DETAILS !in target
  {
    if STATUS_DETAILS in target {
      var a, b := ConnectError(1, "", map[], []), ConnectError(2, "", map[], []);
      var ha, hb := TrimAll(SetTrailerStatus(target, Some(a), codec)), TrimAll(SetTrailerStatus(target, Some(b), codec));
      assert ha[STATUS_DETAILS] == hb[STATUS_DETAILS];
      assert !(Recovers(target, a, codec) && Recovers(target, b, codec));
    } else {
      forall code: Int32, message | IsCode(code) ensures Recovers(target, ConnectError(code, message, map[], []), codec) {
        StatusRoundTrip(target, ConnectError(code, message, map[], []), codec);
      }
    }
  }

  /** A successful call: the status of the trailers is the one they were created with. */
  lemma OkRoundTrip(target: Headers, codec: StatusCodec)
    requires STATUS_DETAILS !in target && GRPC_STATUS in target && target[GRPC_STATUS] == GRPC_STATUS_OK
    ensures FindTrailerError(TrimAll(target), codec) == Ok(None)
  {
  }

  /** createTrailerSerialization */
  function TrailerSerialization(utf8: Utf8, orderOf: Headers -> seq<string>): Serialization<Headers>
    requires forall h: Headers, k :: k in orderOf(h) ==> k in h
  {
    Serialization(
      (h: Headers) => Ok(utf8.encode(TrailerText(orderOf(h), h))),
      (data: seq<byte>) => ParseText(utf8.decode(data)))
  }
}
