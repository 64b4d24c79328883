/** EndStreamResponse of the Connect protocol: the metadata and error that end a stream, as JSON. */
module EndStreams {
  import opened Base
  import opened Js
  import opened Http
  import opened Pipeline

  /** Bit 1 of the flags: the payload is an EndStreamResponse. */
  const END_STREAM_FLAG: byte := 0x02

  datatype EndStream = EndStream(metadata: Headers, error: Option<ConnectError>)

  /** Base64, of which only the round trip matters. */
  datatype Base64 = Base64(enc: seq<byte> -> string, dec: string -> Option<seq<byte>>) {
    ghost predicate Lawful() {
      forall b: seq<byte> :: dec(enc(b)) == Some(b)
    }
  }

  /** JSON text in UTF-8. */
  datatype JsonText = JsonText(write: Json -> seq<byte>, read: seq<byte> -> Option<Json>) {
    ghost predicate Lawful() {
      forall j: Json :: IsValue(j) ==> read(write(j)) == Some(j)
    }
  }

  // ---- codes -------------------------------------------------------------

  const CODE_NAMES: seq<string> := [
    "canceled", "unknown", "invalid_argument", "deadline_exceeded", "not_found", "already_exists",
    "permission_denied", "resource_exhausted", "failed_precondition", "aborted", "out_of_range",
    "unimplemented", "internal", "unavailable", "data_loss", "unauthenticated"]

  predicate IsCode(code: int) { 1 <= code <= 16 }

  function CodeToString(code: int): string {
    if IsCode(code) then CODE_NAMES[code - 1]
    else if code < 0 then "-" + NatToString(-code) else NatToString(code)
  }

  function PositionOf(names: seq<string>, name: string): (r: Option<nat>)
    ensures r.Some? ==> r.value < |names| && names[r.value] == name
    ensures r.None? ==> name !in names
  {
    if names == [] then None
    else if names[0] == name then Some(0)
    else match PositionOf(names[1..], name)
      case Some(i) => Some(i + 1)
      case None => None
  }

  function CodeFromString(name: string): (code: Option<Int32>)
    ensures code.Some? ==> IsCode(code.value)
  {
    match PositionOf(CODE_NAMES, name)
    case Some(i) => Some(i + 1)
    case None => None
  }

  lemma NamesDiffer(i: nat, j: nat)
    requires i < j < 16
    ensures CODE_NAMES[i] != CODE_NAMES[j]
  {
  }

  /** Names of codes are exactly what reads back, and each reads back as its code; other codes do not. */
  lemma CodeRoundTrip(code: int)
    ensures CodeFromString(CodeToString(code)) == if IsCode(code) then Some(code) else None
  {
    var name := CodeToString(code);
    if IsCode(code) {
      var i := PositionOf(CODE_NAMES, name).value;
      if i < code - 1 {
        NamesDiffer(i, code - 1);
      } else if code - 1 < i {
        NamesDiffer(code - 1, i);
      }
    } else {
      assert name[|name| - 1] in NatToString(if code < 0 then -code else code);
      assert forall i :: 0 <= i < 16 ==> !IsDigit(CODE_NAMES[i][|CODE_NAMES[i]| - 1]);
    }
  }

  // ---- objects -----------------------------------------------------------

  function Field(fields: seq<(string, Json)>, key: string): Option<Json> {
    if fields == [] then None
    else if fields[0].0 == key then Some(fields[0].1)
    else Field(fields[1..], key)
  }

  lemma FieldCons(key: string, value: Json, rest: seq<(string, Json)>, other: string)
    ensures Field([(key, value)] + rest, other) == if key == other then Some(value) else Field(rest, other)
  {
  }

  /** `o[key] = value` for an object value: a new key comes last, but an array index before all greater ones and all
      other keys. The key "__proto__" sets the prototype, and adds no field. */
  function SetField(fields: seq<(string, Json)>, key: string, value: Json): seq<(string, Json)> {
    if key == "__proto__" then fields
    else if fields == [] then [(key, value)]
    else if fields[0].0 == key then [(key, value)] + fields[1..]
    else if Rank(key) < Rank(fields[0].0) then [(key, value)] + fields
    else [fields[0]] + SetField(fields[1..], key, value)
  }

  /** `typeof json === "object"` */
  predicate IsObjectType(j: Json) {
    j.Null? || j.Arr? || j.Obj?
  }

  // ---- writing -----------------------------------------------------------

  function DetailToJson(d: Detail, b64: Base64): Json {
    Obj([("type", Str(d.typeName))]
        + (if d.debug.Some? then [("debug", d.debug.value)] else [])
        + [("value", Str(b64.enc(d.payload)))])
  }

  function DetailsToJson(details: seq<Detail>, b64: Base64): (r: seq<Json>)
    ensures |r| == |details| && forall i :: 0 <= i < |r| ==> r[i] == DetailToJson(details[i], b64)
  {
    seq(|details|, i requires 0 <= i < |details| => DetailToJson(details[i], b64))
  }

  function ErrorToJson(error: ConnectError, b64: Base64): Json {
    Obj([("code", Str(CodeToString(error.code)))]
        + (if |error.message| > 0 then [("message", Str(error.message))] else [])
        + (if |error.details| > 0 then [("details", Arr(DetailsToJson(error.details, b64)))] else []))
  }

  /** The metadata that goes on the wire: the trailers, and behind them the metadata of the error. */
  function Merged(metadata: Headers, error: Option<ConnectError>): Headers {
    if error.Some? then AppendAll(AppendAll(map[], metadata), error.value.metadata) else metadata
  }

  /** The object `md` after forEach has visited the fields of `h` in the given order. */
  function MetadataToJson(order: seq<string>, h: Headers): seq<(string, Json)>
    requires forall k :: k in order ==> k in h
  {
    if order == [] then []
    else
      var last := order[|order| - 1];
      SetField(MetadataToJson(order[..|order| - 1], h), last, Arr([Str(h[last])]))
  }

  function EndStreamToJson(metadata: Headers, error: Option<ConnectError>, order: seq<string>, b64: Base64): Json
    requires forall k :: k in order ==> k in Merged(metadata, error)
  {
    Obj((if error.Some? then [("error", ErrorToJson(error.value, b64))] else [])
        + (if order != [] then [("metadata", Obj(MetadataToJson(order, Merged(metadata, error))))] else []))
  }

  /** Fills `md` and `es` step by step. */
  method WriteEndStream(metadata: Headers, error: Option<ConnectError>, order: seq<string>, b64: Base64) returns (es: Json)
    requires forall k :: k in order ==> k in Merged(metadata, error)
    ensures es == EndStreamToJson(metadata, error, order, b64)
  {
    var fields: seq<(string, Json)> := [];
    var merged := metadata;
    if error.Some? {
      fields := [("error", ErrorToJson(error.value, b64))];
      merged := AppendAll(AppendAll(map[], metadata), error.value.metadata);
    }
    var hasMetadata, md := WriteMetadata(order, merged);
    var more := if hasMetadata then [("metadata", Obj(md))] else [];
    return Obj(fields + more);
  }

  method WriteMetadata(order: seq<string>, h: Headers) returns (hasMetadata: bool, md: seq<(string, Json)>)
    requires forall k :: k in order ==> k in h
    ensures hasMetadata <==> order != []
    ensures md == MetadataToJson(order, h)
  {
    hasMetadata, md := false, [];
    for i := 0 to |order|
      invariant md == MetadataToJson(order[..i], h)
      invariant hasMetadata <==> i > 0
    {
      hasMetadata := true;
      assert order[..i + 1][..i] == order[..i] && order[i] in order;
      md := SetField(md, order[i], Arr([Str(h[order[i]])]));
    }
    assert order[..|order|] == order;
  }

  // ---- reading -----------------------------------------------------------

  const PARSE_ERROR := ConnectError(INVALID_ARGUMENT, "invalid end stream", map[], [])

  predicate AllStrings(values: seq<Json>) {
    forall i :: 0 <= i < |values| ==> values[i].Str?
  }

  function Named(key: string, values: seq<Json>): (r: seq<(string, string)>)
    requires AllStrings(values)
  {
    seq(|values|, i requires 0 <= i < |values| => (key, values[i].s))
  }

  /** Appends every value of every field; a field that is no list of strings is a parse error. */
  function MetadataFromJson(h: Headers, fields: seq<(string, Json)>): Result<Headers, Thrown>
    decreases |fields|
  {
    if fields == [] then Ok(h)
    else
      var (key, values) := fields[0];
      if !values.Arr? || !AllStrings(values.elements) then Err(Raised(PARSE_ERROR))
      else match AppendList(h, Named(key, values.elements))
        case Ok(h') => MetadataFromJson(h', fields[1..])
        case Err(reason) => Err(reason)
  }

  /** The normalized strings of a list, in order. */
  function Strings(values: seq<Json>): seq<string>
    requires AllStrings(values)
  {
    if values == [] then [] else [Normalize(values[0].s)] + Strings(values[1..])
  }

  /** Fields that can be read: lists of strings, of which those that are not empty have a valid name and valid values. */
  predicate IsReadable(field: (string, Json)) {
    && field.1.Arr? && AllStrings(field.1.elements)
    && forall i :: 0 <= i < |field.1.elements| ==> IsField((field.0, field.1.elements[i].s))
  }

  predicate AreReadable(fields: seq<(string, Json)>) {
    forall i :: 0 <= i < |fields| ==> IsReadable(fields[i])
  }

  /** All values under a name, in any case, in the order of fields and values. */
  function AllValues(fields: seq<(string, Json)>, name: string): seq<string>
    requires AreReadable(fields)
  {
    if fields == [] then []
    else
      (if Lower(fields[0].0) == name then Strings(fields[0].1.elements) else []) + AllValues(fields[1..], name)
  }

  lemma {:induction false} NamedValues(key: string, values: seq<Json>, name: string)
    requires AllStrings(values)
    ensures ValuesFor(Named(key, values), name) == if Lower(key) == name then Strings(values) else []
    decreases |values|
  {
    if values != [] {
      assert Named(key, values)[0] == (key, values[0].s) && Named(key, values)[1..] == Named(key, values[1..]);
      NamedValues(key, values[1..], name);
    }
  }

  lemma ReadableNamed(key: string, values: Json)
    requires values.Arr? && AllStrings(values.elements)
    ensures IsReadable((key, values))
       <==> forall i :: 0 <= i < |Named(key, values.elements)| ==> IsField(Named(key, values.elements)[i])
  {
    var named := Named(key, values.elements);
    assert |named| == |values.elements|;
    forall i | 0 <= i < |named| ensures IsField(named[i]) <==> IsField((key, values.elements[i].s)) {
      assert named[i] == (key, values.elements[i].s);
    }
  }

  /** Reading metadata: exactly readable fields can be read, and a name then holds what it held, and behind that all
      values under it, in the order of fields and values. */
  lemma {:induction false} MetadataHolds(h: Headers, fields: seq<(string, Json)>, name: string)
    ensures MetadataFromJson(h, fields).Ok? <==> AreReadable(fields)
    ensures AreReadable(fields) ==>
      Held(MetadataFromJson(h, fields).value, name) == JoinedTo(Held(h, name), AllValues(fields, name))
    decreases |fields|
  {
    if fields != [] {
      var (key, values) := fields[0];
      var rest := fields[1..];
      assert forall i :: 0 < i < |fields| ==> fields[i] == rest[i - 1];
      if values.Arr? && AllStrings(values.elements) {
        var named := Named(key, values.elements);
        AppendListHolds(h, named, name);
        ReadableNamed(key, values);
        if IsReadable(fields[0]) {
          NamedValues(key, values.elements, name);
          MetadataHolds(AppendList(h, named).value, rest, name);
          if AreReadable(rest) {
            JoinedTwice(Held(h, name), if Lower(key) == name then Strings(values.elements) else [], AllValues(rest, name));
          }
        }
      }
    }
  }

  /** None where the code throws its fallback. */
  function DetailFromJson(j: Json, b64: Base64): Option<Detail> {
    if !j.Obj? then None
    else
      var (t, v, debug) := (Field(j.fields, "type"), Field(j.fields, "value"), Field(j.fields, "debug"));
      if t.None? || !t.value.Str? || v.None? || !v.value.Str? || (debug.Some? && !IsObjectType(debug.value)) then None
      else match b64.dec(v.value.s)
        case Some(payload) => Some(IncomingDetail(t.value.s, payload, debug))
        case None => None
  }

  function DetailsFromJson(elements: seq<Json>, b64: Base64): Option<seq<Detail>> {
    if elements == [] then Some([])
    else
      var (first, rest) := (DetailFromJson(elements[0], b64), DetailsFromJson(elements[1..], b64));
      if first.None? || rest.None? then None else Some([first.value] + rest.value)
  }

  /** errorFromJson: an error with the given metadata, or the fallback, to which the metadata was appended. */
  function ErrorFromJson(j: Json, metadata: Headers, fallback: ConnectError, b64: Base64): Result<ConnectError, Thrown> {
    var thrown := Err(Raised(fallback.(metadata := AppendAll(fallback.metadata, Copy(metadata)))));
    if !j.Obj? then thrown
    else
      var code, message, details := Field(j.fields, "code"), Field(j.fields, "message"), Field(j.fields, "details");
      if code.None? || !code.value.Str? || CodeFromString(code.value.s).None? then thrown
      else if message.Some? && !message.value.Null? && !message.value.Str? then thrown
      else
        var text := if message.Some? && message.value.Str? then message.value.s else "";
        var parsed := if details.Some? && details.value.Arr? then DetailsFromJson(details.value.elements, b64) else Some([]);
        if parsed.None? then thrown
        else Ok(ConnectError(CodeFromString(code.value.s).value, text, Copy(metadata), parsed.value))
  }

  function EndStreamFromJson(j: Json, b64: Base64): Result<EndStream, Thrown> {
    if !j.Obj? then Err(Raised(PARSE_ERROR))
    else
      var md := Field(j.fields, "metadata");
      if md.Some? && !md.value.Obj? then Err(Raised(PARSE_ERROR))
      else
        match if md.Some? then MetadataFromJson(map[], md.value.fields) else Ok(map[])
        case Err(reason) => Err(reason)
        case Ok(metadata) =>
          match Field(j.fields, "error")
          case None => Ok(EndStream(metadata, None))
          case Some(e) =>
            match ErrorFromJson(e, metadata, PARSE_ERROR, b64)
            case Ok(error) => Ok(EndStream(metadata, Some(error)))
            case Err(reason) => Err(reason)
  }

  lemma ReadValues(fields: seq<(string, Json)>)
    ensures
      var r := MetadataFromJson(map[], fields);
      && (r.Ok? <==> AreReadable(fields))
      && (r.Ok? ==> forall name :: name in r.value <==> AllValues(fields, name) != [])
      && (r.Ok? ==> forall name :: name in r.value ==> r.value[name] == Join(AllValues(fields, name), ", "))
  {
    MetadataHolds(map[], fields, "");
    if AreReadable(fields) {
      var r := MetadataFromJson(map[], fields).value;
      forall name
        ensures name in r <==> AllValues(fields, name) != []
        ensures name in r ==> r[name] == Join(AllValues(fields, name), ", ")
      {
        MetadataHolds(map[], fields, name);
        assert Held(map[], name) == None && [] + AllValues(fields, name) == AllValues(fields, name);
        assert Held(r, name) == JoinedTo(None, AllValues(fields, name));
      }
    }
  }

  /** Appends field by field and value by value, as the nested loops do. */
  method ReadMetadata(fields: seq<(string, Json)>) returns (r: Result<Headers, Thrown>)
    ensures r == MetadataFromJson(map[], fields)
    ensures r.Ok? <==> AreReadable(fields)
    ensures r.Ok? ==> forall name :: name in r.value <==> AllValues(fields, name) != []
    ensures r.Ok? ==> forall name :: name in r.value ==> r.value[name] == Join(AllValues(fields, name), ", ")
  {
    ReadValues(fields);
    var metadata: Headers := map[];
    for i := 0 to |fields|
      invariant MetadataFromJson(map[], fields) == MetadataFromJson(metadata, fields[i..])
    {
      var (key, values) := fields[i];
      assert fields[i..][0] == fields[i] && fields[i..][1..] == fields[i + 1..];
      if !values.Arr? || exists k :: 0 <= k < |values.elements| && !values.elements[k].Str? {
        return Err(Raised(PARSE_ERROR));
      }
      var named := Named(key, values.elements);
      ghost var start := metadata;
      for k := 0 to |named|
        invariant AppendList(start, named) == AppendList(metadata, named[k..])
      {
        assert named[k..][0] == named[k] && named[k..][1..] == named[k + 1..];
        var appended := Append(metadata, named[k].0, named[k].1);
        if appended.Err? {
          return Err(appended.error);
        }
        metadata := appended.value;
      }
      assert named[|named|..] == [];
    }
    assert fields[|fields|..] == [];
    return Ok(metadata);
  }

  /** Pushes detail after detail; None where the code throws its fallback. */
  method ReadDetails(elements: seq<Json>, b64: Base64) returns (r: Option<seq<Detail>>)
    ensures r == DetailsFromJson(elements, b64)
  {
    var details: seq<Detail> := [];
    PrependNothing(DetailsFromJson(elements, b64));
    assert elements[0..] == elements;
    for i := 0 to |elements|
      invariant DetailsFromJson(elements, b64) == PrependDetails(details, DetailsFromJson(elements[i..], b64))
    {
      assert elements[i..][0] == elements[i] && elements[i..][1..] == elements[i + 1..];
      var detail := DetailFromJson(elements[i], b64);
      if detail.None? {
        return None;
      }
      ghost var rest := DetailsFromJson(elements[i + 1..], b64);
      if rest.Some? {
        ConcatAssociates(details, [detail.value], rest.value);
      }
      details := details + [detail.value];
    }
    assert elements[|elements|..] == [] && details + [] == details;
    return Some(details);
  }

  function PrependDetails(details: seq<Detail>, rest: Option<seq<Detail>>): Option<seq<Detail>> {
    if rest.None? then None else Some(details + rest.value)
  }

  lemma PrependNothing(rest: Option<seq<Detail>>)
    ensures PrependDetails([], rest) == rest
  {
    if rest.Some? {
      assert [] + rest.value == rest.value;
    }
  }

  // ---- round trip --------------------------------------------------------

  /** A debug value survives exactly when typeof calls it an object; a string or number does not. */
  predicate DebugSurvives(d: Detail) {
    d.debug.Some? ==> IsObjectType(d.debug.value)
  }

  function Incoming(d: Detail): Detail {
    IncomingDetail(d.typeName, d.payload, d.debug)
  }

  function IncomingAll(details: seq<Detail>): (r: seq<Detail>)
    ensures |r| == |details| && forall i :: 0 <= i < |r| ==> r[i] == Incoming(details[i])
  {
    seq(|details|, i requires 0 <= i < |details| => Incoming(details[i]))
  }

  lemma DetailRoundTrip(d: Detail, b64: Base64)
    requires b64.Lawful()
    ensures DetailFromJson(DetailToJson(d, b64), b64) == DetailReceived(d)
  {
    assert b64.dec(b64.enc(d.payload)) == Some(d.payload);
    DetailFields(d, b64, "type");
    DetailFields(d, b64, "debug");
    DetailFields(d, b64, "value");
  }

  lemma DetailFields(d: Detail, b64: Base64, key: string)
    ensures Field(DetailToJson(d, b64).fields, key)
         == if key == "type" then Some(Str(d.typeName))
            else if key == "debug" then d.debug
            else if key == "value" then Some(Str(b64.enc(d.payload)))
            else None
  {
    var value := [("value", Str(b64.enc(d.payload)))];
    assert value == value + [];
    FieldCons("value", Str(b64.enc(d.payload)), [], key);
    var debug := if d.debug.Some? then [("debug", d.debug.value)] else [];
    if d.debug.Some? {
      FieldCons("debug", d.debug.value, value, key);
    } else {
      assert debug + value == value;
    }
    assert DetailToJson(d, b64).fields == [("type", Str(d.typeName))] + (debug + value);
    FieldCons("type", Str(d.typeName), debug + value, key);
  }

  function DetailReceived(d: Detail): Option<Detail> {
    if DebugSurvives(d) then Some(Incoming(d)) else None
  }

  lemma {:induction false} DetailsReceived(js: seq<Json>, details: seq<Detail>, b64: Base64)
    requires |js| == |details| && forall i :: 0 <= i < |js| ==> DetailFromJson(js[i], b64) == DetailReceived(details[i])
    ensures DetailsFromJson(js, b64)
         == if forall d :: d in details ==> DebugSurvives(d) then Some(IncomingAll(details)) else None
  {
    if details != [] {
      DetailsReceived(js[1..], details[1..], b64);
      assert IncomingAll(details) == [Incoming(details[0])] + IncomingAll(details[1..]);
    }
  }

  lemma DetailsRoundTrip(details: seq<Detail>, b64: Base64)
    requires b64.Lawful()
    ensures DetailsFromJson(DetailsToJson(details, b64), b64)
         == if forall d :: d in details ==> DebugSurvives(d) then Some(IncomingAll(details)) else None
  {
    var js := DetailsToJson(details, b64);
    forall i | 0 <= i < |js| ensures DetailFromJson(js[i], b64) == DetailReceived(details[i]) {
      DetailRoundTrip(details[i], b64);
    }
    DetailsReceived(js, details, b64);
  }

  predicate ErrorSurvives(error: ConnectError) {
    IsCode(error.code) && forall d :: d in error.details ==> DebugSurvives(d)
  }

  /** What the client makes of an error: same code, message and details, with the metadata of the end of stream. */
  function ErrorReceived(error: ConnectError, metadata: Headers): ConnectError {
    ConnectError(error.code, error.message, Copy(metadata), IncomingAll(error.details))
  }

  function FallbackThrown(metadata: Headers): Thrown {
    Raised(PARSE_ERROR.(metadata := AppendAll(map[], Copy(metadata))))
  }

  lemma ErrorRoundTrip(error: ConnectError, metadata: Headers, b64: Base64)
    requires b64.Lawful()
    ensures ErrorFromJson(ErrorToJson(error, b64), metadata, PARSE_ERROR, b64)
         == if ErrorSurvives(error) then Ok(ErrorReceived(error, metadata)) else Err(FallbackThrown(metadata))
  {
    CodeRoundTrip(error.code);
    DetailsRoundTrip(error.details, b64);
    ErrorFields(error, b64, "code");
    ErrorFields(error, b64, "message");
    ErrorFields(error, b64, "details");
  }

  lemma ErrorFields(error: ConnectError, b64: Base64, key: string)
    ensures Field(ErrorToJson(error, b64).fields, key)
         == if key == "code" then Some(Str(CodeToString(error.code)))
            else if key == "message" && |error.message| > 0 then Some(Str(error.message))
            else if key == "details" && |error.details| > 0 then Some(Arr(DetailsToJson(error.details, b64)))
            else None
  {
    var details := Arr(DetailsToJson(error.details, b64));
    var d := if |error.details| > 0 then [("details", details)] else [];
    assert d == d + [];
    FieldCons("details", details, [], key);
    var m := if |error.message| > 0 then [("message", Str(error.message))] else [];
    FieldCons("message", Str(error.message), d, key);
    assert |error.message| == 0 ==> m + d == d;
    assert ErrorToJson(error, b64).fields == [("code", Str(CodeToString(error.code)))] + (m + d);
    FieldCons("code", Str(CodeToString(error.code)), m + d, key);
  }

  function Insert(names: seq<string>, key: string): seq<string> {
    if names == [] then [key]
    else if Rank(key) < Rank(names[0]) then [key] + names
    else [names[0]] + Insert(names[1..], key)
  }

  /** The names that reach the client, in the order of the object's fields: all but "__proto__". */
  function Proper(order: seq<string>): seq<string> {
    if order == [] then []
    else
      var (front, last) := (Proper(order[..|order| - 1]), order[|order| - 1]);
      if last == "__proto__" then front else Insert(front, last)
  }

  function Lines(order: seq<string>, h: Headers): (r: seq<(string, Json)>)
    requires forall k :: k in order ==> k in h
    ensures |r| == |order| && forall i :: 0 <= i < |r| ==> r[i] == (order[i], Arr([Str(h[order[i]])]))
  {
    seq(|order|, i requires 0 <= i < |order| => (order[i], Arr([Str(h[order[i]])])))
  }

  predicate NamesInOrder(names: seq<string>) {
    forall i, j :: 0 <= i < j < |names| ==> Rank(names[i]) <= Rank(names[j])
  }

  lemma ConsLists(first: string, rest: seq<string>, h: Headers)
    requires Lists(rest, h) && NamesInOrder(rest) && first in h && first !in rest
    requires forall k :: k in rest ==> Rank(first) <= Rank(k)
    ensures Lists([first] + rest, h) && NamesInOrder([first] + rest)
  {
    var all := [first] + rest;
    forall i, j | 0 <= i < j < |all| ensures all[i] != all[j] && Rank(all[i]) <= Rank(all[j]) {
      assert all[j] in rest;
    }
  }

  lemma ConsMembers(first: string, rest: seq<string>)
    ensures forall k :: k in [first] + rest <==> k == first || k in rest
  {
  }

  /** Inserting a new name keeps names distinct and in order. */
  lemma {:induction false} InsertIs(names: seq<string>, key: string, h: Headers)
    requires Lists(names, h) && NamesInOrder(names) && key in h && key !in names
    ensures Lists(Insert(names, key), h) && NamesInOrder(Insert(names, key))
    ensures forall k :: k in Insert(names, key) <==> k == key || k in names
  {
    if names == [] {
      assert Insert(names, key) == [key];
    } else {
      ConsMembers(names[0], names[1..]);
      assert [names[0]] + names[1..] == names;
      if Rank(key) < Rank(names[0]) {
        ConsLists(key, names, h);
        ConsMembers(key, names);
      } else {
        InsertIs(names[1..], key, h);
        ConsLists(names[0], Insert(names[1..], key), h);
        ConsMembers(names[0], Insert(names[1..], key));
      }
    }
  }

  lemma {:induction false} ProperIs(order: seq<string>, h: Headers)
    requires Lists(order, h)
    ensures Lists(Proper(order), h) && NamesInOrder(Proper(order))
    ensures forall k :: k in Proper(order) <==> k in order && k != "__proto__"
  {
    if order != [] {
      var (front, last) := (order[..|order| - 1], order[|order| - 1]);
      ProperIs(front, h);
      if last != "__proto__" {
        InsertIs(Proper(front), last, h);
      }
    }
  }

  function LineOf(key: string, h: Headers): (string, Json)
    requires key in h
  {
    (key, Arr([Str(h[key])]))
  }

  lemma LinesCons(first: string, rest: seq<string>, h: Headers)
    requires first in h && forall k :: k in rest ==> k in h
    ensures (forall k :: k in [first] + rest ==> k in h) && Lines([first] + rest, h) == [LineOf(first, h)] + Lines(rest, h)
  {
  }

  /** Setting a new field is inserting its name. */
  lemma {:induction false} SetNewField(names: seq<string>, key: string, h: Headers)
    requires (forall k :: k in names ==> k in h) && key in h && key !in names && key != "__proto__"
    ensures (forall k :: k in Insert(names, key) ==> k in h)
    ensures SetField(Lines(names, h), key, LineOf(key, h).1) == Lines(Insert(names, key), h)
  {
    LinesCons(key, names, h);
    if names == [] {
      assert [key] + names == [key];
    } else {
      assert names[0] in names;
      SetNewField(names[1..], key, h);
      assert Lines(names, h)[1..] == Lines(names[1..], h);
      LinesCons(names[0], Insert(names[1..], key), h);
    }
  }

  lemma {:induction false} MetadataIsLines(order: seq<string>, h: Headers)
    requires Lists(order, h) && Lists(Proper(order), h)
    ensures MetadataToJson(order, h) == Lines(Proper(order), h)
  {
    if order != [] {
      var (front, last) := (order[..|order| - 1], order[|order| - 1]);
      ProperIs(front, h);
      MetadataIsLines(front, h);
      if last != "__proto__" {
        SetNewField(Proper(front), last, h);
      }
    }
  }

  lemma {:induction false} LinesAppend(acc: Headers, order: seq<string>, h: Headers)
    requires Lists(order, h)
    ensures MetadataFromJson(acc, Lines(order, h)) == AppendList(acc, Entries(order, h))
    decreases |order|
  {
    var lines, entries := Lines(order, h), Entries(order, h);
    if order != [] {
      var values := lines[0].1.elements;
      assert values == [Str(h[order[0]])];
      assert Named(order[0], values) == [entries[0]];
      assert lines[1..] == Lines(order[1..], h) && entries[1..] == Entries(order[1..], h);
      AppendOne(acc, entries[0]);
      var appended := Append(acc, entries[0].0, entries[0].1);
      if appended.Ok? {
        LinesAppend(appended.value, order[1..], h);
      }
    }
  }

  lemma AppendOne(h: Headers, field: (string, string))
    ensures AppendList(h, [field]) == Append(h, field.0, field.1)
  {
  }

  /** What the client receives of a set of fields: normalized once more, and without "__proto__". */
  function MetadataReceived(merged: Headers): Headers {
    Copy(map k | k in merged && k != "__proto__" :: merged[k])
  }

  lemma MetadataRoundTrip(order: seq<string>, h: Headers)
    requires WellFormed(h) && Enumerates(order, h)
    ensures MetadataFromJson(map[], MetadataToJson(order, h)) == Ok(MetadataReceived(h))
  {
    var names := Proper(order);
    ProperIs(order, h);
    MetadataIsLines(order, h);
    LinesAppend(map[], names, h);
    AppendInOrder(map[], h, names);
    var kept := map k | k in h && k != "__proto__" :: h[k];
    assert Restrict(h, names) == kept;
    CopyIsAppend(kept);
  }

  /** Reading back an end of stream: the metadata arrives, and the error arrives with its code, message and
      ordered details exactly when its code is known and every debug value is absent, null, a list or an object. */
  lemma EndStreamRoundTrip(metadata: Headers, error: Option<ConnectError>, order: seq<string>, b64: Base64)
    requires b64.Lawful() && WellFormed(Merged(metadata, error)) && Enumerates(order, Merged(metadata, error))
    ensures EndStreamFromJson(EndStreamToJson(metadata, error, order, b64), b64)
         == EndStreamReceived(metadata, error)
  {
    var merged := Merged(metadata, error);
    EndStreamFields(metadata, error, order, b64, "metadata");
    EndStreamFields(metadata, error, order, b64, "error");
    MetadataRoundTrip(order, merged);
    if order == [] {
      assert MetadataReceived(merged) == map[];
    }
    if error.Some? {
      ErrorRoundTrip(error.value, MetadataReceived(merged), b64);
    }
  }

  lemma EndStreamFields(metadata: Headers, error: Option<ConnectError>, order: seq<string>, b64: Base64, key: string)
    requires forall k :: k in order ==> k in Merged(metadata, error)
    ensures Field(EndStreamToJson(metadata, error, order, b64).fields, key)
         == if key == "error" && error.Some? then Some(ErrorToJson(error.value, b64))
            else if key == "metadata" && order != [] then Some(Obj(MetadataToJson(order, Merged(metadata, error))))
            else None
  {
    var value := Obj(MetadataToJson(order, Merged(metadata, error)));
    var md := if order != [] then [("metadata", value)] else [];
    assert md == md + [];
    FieldCons("metadata", value, [], key);
    if error.Some? {
      FieldCons("error", ErrorToJson(error.value, b64), md, key);
    } else {
      assert EndStreamToJson(metadata, error, order, b64).fields == [] + md == md;
    }
  }

  predicate DebugsAreValues(details: seq<Detail>) {
    forall i :: 0 <= i < |details| && details[i].debug.Some? ==> IsValue(details[i].debug.value)
  }

  lemma DetailIsValue(d: Detail, b64: Base64)
    requires d.debug.Some? ==> IsValue(d.debug.value)
    ensures IsValue(DetailToJson(d, b64))
  {
    assert IsValue(Str(d.typeName)) && IsValue(Str(b64.enc(d.payload)));
  }

  lemma ErrorIsValue(error: ConnectError, b64: Base64)
    requires DebugsAreValues(error.details)
    ensures IsValue(ErrorToJson(error, b64))
  {
    var details := DetailsToJson(error.details, b64);
    forall i | 0 <= i < |details| ensures IsValue(details[i]) {
      DetailIsValue(error.details[i], b64);
    }
    assert IsValue(Str(CodeToString(error.code))) && IsValue(Str(error.message));
  }

  lemma LinesAreValues(names: seq<string>, h: Headers)
    requires Lists(names, h) && NamesInOrder(names)
    ensures IsValue(Obj(Lines(names, h)))
  {
    var lines := Lines(names, h);
    forall i | 0 <= i < |lines| ensures IsValue(lines[i].1) {
    }
  }

  lemma MetadataIsValue(order: seq<string>, h: Headers)
    requires Lists(order, h)
    ensures IsValue(Obj(MetadataToJson(order, h)))
  {
    ProperIs(order, h);
    MetadataIsLines(order, h);
    LinesAreValues(Proper(order), h);
  }

  /** An end of stream is a JSON value, so that its text can be parsed. */
  lemma EndStreamIsValue(metadata: Headers, error: Option<ConnectError>, order: seq<string>, b64: Base64)
    requires Lists(order, Merged(metadata, error)) && (error.Some? ==> DebugsAreValues(error.value.details))
    ensures IsValue(EndStreamToJson(metadata, error, order, b64))
  {
    MetadataIsValue(order, Merged(metadata, error));
    if error.Some? {
      ErrorIsValue(error.value, b64);
    }
  }

  function EndStreamReceived(metadata: Headers, error: Option<ConnectError>): Result<EndStream, Thrown> {
    var received := MetadataReceived(Merged(metadata, error));
    if error.None? then Ok(EndStream(received, None))
    else if ErrorSurvives(error.value) then Ok(EndStream(received, Some(ErrorReceived(error.value, received))))
    else Err(FallbackThrown(received))
  }

  lemma ReceivedUnchanged(merged: Headers)
    ensures MetadataReceived(merged) == merged
       <==> "__proto__" !in merged && forall k :: k in merged ==> Normalize(merged[k]) == merged[k]
  {
  }

  /** What endStreamToJson was given is what endStreamFromJson returns as metadata if and only if no field is called
      "__proto__", all values are normalized, and the error, if there is one, survives. */
  lemma MetadataUnchanged(metadata: Headers, error: Option<ConnectError>, order: seq<string>, b64: Base64)
    requires b64.Lawful() && WellFormed(Merged(metadata, error)) && Enumerates(order, Merged(metadata, error))
    ensures
      var r := EndStreamFromJson(EndStreamToJson(metadata, error, order, b64), b64);
      var merged := Merged(metadata, error);
      (r.Ok? && r.value.metadata == merged) <==>
      ("__proto__" !in merged && (forall k :: k in merged ==> Normalize(merged[k]) == merged[k])
       && (error.Some? ==> ErrorSurvives(error.value)))
  {
    EndStreamRoundTrip(metadata, error, order, b64);
    ReceivedUnchanged(Merged(metadata, error));
  }

  /** It does happen: a trailer called "__proto__" is a valid one, and is lost. */
  lemma ProtoIsLost(b64: Base64)
    requires b64.Lawful()
    ensures
      var trailer: Headers := map["__proto__" := "x"];
      && WellFormed(trailer)
      && EndStreamFromJson(EndStreamToJson(trailer, None, ["__proto__"], b64), b64) == Ok(EndStream(map[], None))
  {
    var trailer: Headers := map["__proto__" := "x"];
    assert Lower("__proto__") == "__proto__";
    assert Enumerates(["__proto__"], trailer);
    EndStreamRoundTrip(trailer, None, ["__proto__"], b64);
    assert MetadataReceived(trailer) == map[];
  }

  /** And an error with a detail whose debug value is a string is discarded, for another one. */
  lemma DebugIsFatal(b64: Base64, payload: seq<byte>)
    requires b64.Lawful()
    ensures
      var error := ConnectError(INTERNAL, "", map[], [MessageDetail("a.B", payload, Some(Str("x")))]);
      EndStreamFromJson(EndStreamToJson(map[], Some(error), [], b64), b64) == Err(Raised(PARSE_ERROR))
  {
    var detail := MessageDetail("a.B", payload, Some(Str("x")));
    var error := ConnectError(INTERNAL, "", map[], [detail]);
    EndStreamRoundTrip(map[], Some(error), [], b64);
    assert detail in error.details && !DebugSurvives(detail);
    assert MetadataReceived(map[]) == map[] && AppendAll(map[], map[]) == map[];
  }

  // ---- the form on the wire, and forms by others -------------------------

  /** The trailers come first, and behind them the metadata of the error. */
  lemma MergedOrder(metadata: Headers, error: ConnectError, name: string)
    ensures Held(Merged(metadata, Some(error)), name)
         == JoinedTo(if name in metadata then Some(Normalize(metadata[name])) else None,
                     if name in error.metadata then [Normalize(error.metadata[name])] else [])
  {
    CopyIsAppend(metadata);
    MergeOrder(AppendAll(map[], metadata), error.metadata, name);
  }

  lemma DetailForm(payload: seq<byte>, b64: Base64)
    ensures DetailToJson(MessageDetail("a.B", payload, Some(Obj([]))), b64)
         == Obj([("type", Str("a.B")), ("debug", Obj([])), ("value", Str(b64.enc(payload)))])
  {
  }

  lemma ErrorForm(error: ConnectError, b64: Base64)
    requires error.code == 3 && error.message == "m" && |error.details| == 1
    ensures ErrorToJson(error, b64)
         == Obj([("code", Str("invalid_argument")), ("message", Str("m")),
                 ("details", Arr([DetailToJson(error.details[0], b64)]))])
  {
    assert DetailsToJson(error.details, b64) == [DetailToJson(error.details[0], b64)];
  }

  /** An EndStreamResponse, written out. */
  lemma WireForm(payload: seq<byte>, b64: Base64)
    ensures
      var error := ConnectError(3, "m", map[], [MessageDetail("a.B", payload, Some(Obj([])))]);
      && Merged(map["k" := "v"], Some(error)) == map["k" := "v"]
      && EndStreamToJson(map["k" := "v"], Some(error), ["k"], b64)
           == Obj([("error", Obj([("code", Str("invalid_argument")), ("message", Str("m")),
                                  ("details", Arr([Obj([("type", Str("a.B")), ("debug", Obj([])),
                                                        ("value", Str(b64.enc(payload)))])]))])),
                   ("metadata", Obj([("k", Arr([Str("v")]))]))])
  {
    var error := ConnectError(3, "m", map[], [MessageDetail("a.B", payload, Some(Obj([])))]);
    DetailForm(payload, b64);
    ErrorForm(error, b64);
  }

  /** One without error and metadata is an empty object, and an error without message and details just a code. */
  lemma SmallestForms(b64: Base64)
    ensures EndStreamToJson(map[], None, [], b64) == Obj([])
    ensures ErrorToJson(ConnectError(16, "", map[], []), b64) == Obj([("code", Str("unauthenticated"))])
  {
  }

  ghost predicate IsErrorCode(j: Json) {
    j.Str? && exists i :: 0 <= i < 16 && CODE_NAMES[i] == j.s
  }

  ghost predicate IsDetail(j: Json, b64: Base64) {
    && j.Obj?
    && Field(j.fields, "type").Some? && Field(j.fields, "type").value.Str?
    && Field(j.fields, "value").Some? && Field(j.fields, "value").value.Str?
    && b64.dec(Field(j.fields, "value").value.s).Some?
    && (Field(j.fields, "debug").Some? ==>
          var debug := Field(j.fields, "debug").value; !debug.Str? && !debug.Number? && !debug.Bool?)
  }

  /** The errors that a client accepts, by whomever they were written: an object with the name of a code; with no
      message, null, or a string; and with details of the right form, if there is a list of them. */
  ghost predicate IsError(j: Json, b64: Base64) {
    && j.Obj?
    && Field(j.fields, "code").Some? && IsErrorCode(Field(j.fields, "code").value)
    && (Field(j.fields, "message").Some? ==>
          Field(j.fields, "message").value.Null? || Field(j.fields, "message").value.Str?)
    && (Field(j.fields, "details").Some? && Field(j.fields, "details").value.Arr? ==>
          forall d :: d in Field(j.fields, "details").value.elements ==> IsDetail(d, b64))
  }

  lemma {:induction false} DetailsAre(elements: seq<Json>, b64: Base64)
    ensures DetailsFromJson(elements, b64).Some? <==> forall d :: d in elements ==> IsDetail(d, b64)
    ensures DetailsFromJson(elements, b64).Some? ==> |DetailsFromJson(elements, b64).value| == |elements|
    decreases |elements|
  {
    if elements != [] {
      DetailsAre(elements[1..], b64);
      assert DetailFromJson(elements[0], b64).Some? <==> IsDetail(elements[0], b64);
      assert forall d :: d in elements <==> d == elements[0] || d in elements[1..];
    }
  }

  /** Errors by others: exactly the accepted ones are read, with the code of that name, the message or "", a detail for
      each one listed, and the metadata given; for all others the fallback is thrown, behind whose metadata the
      given metadata was appended. */
  lemma ErrorsByOthers(j: Json, metadata: Headers, fallback: ConnectError, b64: Base64)
    ensures
      var r := ErrorFromJson(j, metadata, fallback, b64);
      && (r.Ok? <==> IsError(j, b64))
      && (r.Err? ==> r.error == Raised(fallback.(metadata := AppendAll(fallback.metadata, Copy(metadata)))))
      && (r.Ok? ==>
            var message, details := Field(j.fields, "message"), Field(j.fields, "details");
            && IsCode(r.value.code) && Field(j.fields, "code") == Some(Str(CODE_NAMES[r.value.code - 1]))
            && r.value.message == (if message.Some? && message.value.Str? then message.value.s else "")
            && |r.value.details| == (if details.Some? && details.value.Arr? then |details.value.elements| else 0)
            && r.value.metadata == Copy(metadata))
  {
    if j.Obj? {
      var code, details := Field(j.fields, "code"), Field(j.fields, "details");
      if code.Some? && code.value.Str? {
      }
      if details.Some? && details.value.Arr? {
        DetailsAre(details.value.elements, b64);
      }
    }
  }

  /** What is no object, or has metadata or an error that cannot be read, is no EndStreamResponse; everything else is. */
  lemma EndStreamsByOthers(j: Json, b64: Base64)
    ensures
      EndStreamFromJson(j, b64).Ok? <==>
      (j.Obj?
       && (Field(j.fields, "metadata").Some? ==>
             Field(j.fields, "metadata").value.Obj? && AreReadable(Field(j.fields, "metadata").value.fields))
       && (Field(j.fields, "error").Some? ==> IsError(Field(j.fields, "error").value, b64)))
    ensures EndStreamFromJson(j, b64).Ok? ==>
      (EndStreamFromJson(j, b64).value.error.Some? <==> Field(j.fields, "error").Some?)
  {
    if j.Obj? {
      var md, error := Field(j.fields, "metadata"), Field(j.fields, "error");
      if md.Some? && md.value.Obj? {
        MetadataHolds(map[], md.value.fields, "");
      }
      if error.Some? {
        var metadata := if md.Some? && md.value.Obj? then MetadataFromJson(map[], md.value.fields) else Ok(map[]);
        if metadata.Ok? {
          ErrorsByOthers(error.value, metadata.value, PARSE_ERROR, b64);
        }
      }
    }
  }

  // ---- serialization -----------------------------------------------------

  function ErrorText(reason: Thrown): string {
    if reason.Raised? then "[" + CodeToString(reason.error.code) + "] " + reason.error.message else ""
  }

  /** createEndStreamSerialization: JSON text, with every failure to parse turned into InvalidArgument. */
  function EndStreamSerialization(text: JsonText, b64: Base64, orderOf: Headers -> seq<string>): Serialization<EndStream>
    requires forall h: Headers, k :: k in orderOf(h) ==> k in h
  {
    Serialization(
      (e: EndStream) => Ok(text.write(EndStreamToJson(e.metadata, e.error, orderOf(Merged(e.metadata, e.error)), b64))),
      (data: seq<byte>) =>
        var parsed := match text.read(data) case Some(j) => EndStreamFromJson(j, b64) case None => Err(Raised(PARSE_ERROR));
        match parsed
        case Ok(e) => Ok(e)
        case Err(reason) => Err(Failure(INVALID_ARGUMENT, "failed to parse EndStreamResponse: " + ErrorText(reason))))
  }
}
