/** Compression negotiation: the client's accept list, the server's choice, and the client's look-up of it. */
module Negotiation {
  import opened Base
  import opened Js
  import opened Http
  import opened Envelopes

  /** Who negotiates: unary and streaming calls of Connect, and calls of gRPC and gRPC-web. */
  datatype MethodKind = Unary | Streaming | Grpc

  /** The header fields that name the encoding of a body, and the accepted encodings. */
  function EncodingHeader(kind: MethodKind): string {
    match kind
    case Unary => "content-encoding"
    case Streaming => "connect-content-encoding"
    case Grpc => "grpc-encoding"
  }

  function AcceptHeader(kind: MethodKind): string {
    match kind
    case Unary => "accept-encoding"
    case Streaming => "connect-accept-encoding"
    case Grpc => "grpc-accept-encoding"
  }

  function Names(list: seq<Compression>): (r: seq<string>)
    ensures |r| == |list| && forall i :: 0 <= i < |r| ==> r[i] == list[i].name
  {
    seq(|list|, i requires 0 <= i < |list| => list[i].name)
  }

  /** `list.find((c) => c.name === name)` */
  function Find(list: seq<Compression>, name: string): (r: Option<Compression>)
    ensures r.Some? ==> r.value in list && r.value.name == name
    ensures r.None? ==> forall c :: c in list ==> c.name != name
  {
    if list == [] then None else if list[0].name == name then Some(list[0]) else Find(list[1..], name)
  }

  // ---- client request ----------------------------------------------------

  function RequestHeader(base: Headers, kind: MethodKind, accept: seq<Compression>, send: Option<Compression>): Headers {
    var h := if send.Some? then base[EncodingHeader(kind) := Normalize(send.value.name)] else base;
    if accept != [] then h[AcceptHeader(kind) := Normalize(Join(Names(accept), ","))] else h
  }

  method RequestHeaderWithCompression(base: Headers, kind: MethodKind, accept: seq<Compression>, send: Option<Compression>)
    returns (result: Headers)
    ensures result == RequestHeader(base, kind, accept, send)
  {
    result := base;
    if send.Some? {
      result := result[EncodingHeader(kind) := Normalize(send.value.name)];
    }
    if |accept| > 0 {
      var names: seq<string> := [];
      for i := 0 to |accept|
        invariant names == Names(accept)[..i]
      {
        names := names + [accept[i].name];
      }
      assert names == Names(accept);
      result := result[AcceptHeader(kind) := Normalize(Join(names, ","))];
    }
  }

  /** The client names its encodings only if it has any, and touches no other field. */
  lemma RequestHeaderNames(base: Headers, kind: MethodKind, accept: seq<Compression>, send: Option<Compression>, name: string)
    requires EncodingHeader(kind) !in base && AcceptHeader(kind) !in base
    ensures
      var h := RequestHeader(base, kind, accept, send);
      && (EncodingHeader(kind) in h <==> send.Some?) && (AcceptHeader(kind) in h <==> accept != [])
      && (name != EncodingHeader(kind) && name != AcceptHeader(kind) ==> Held(h, name) == Held(base, name))
  {
    HeaderNames(kind);
  }

  // ---- server ------------------------------------------------------------

  datatype Negotiated = Negotiated(request: Option<Compression>, response: Option<Compression>, error: Option<Thrown>)

  function UnknownCompression(requested: string, available: seq<Compression>, acceptHeader: string): Thrown {
    var acceptable := Join(Names(available), ",");
    Raised(ConnectError(UNIMPLEMENTED,
      "unknown compression \"" + requested + "\": supported encodings are " + acceptable,
      map[acceptHeader := Normalize(acceptable)], []))
  }

  /** The first of the names that is available. */
  function FirstAvailable(names: seq<string>, available: seq<Compression>): Option<Compression> {
    if names == [] then None
    else match Find(available, names[0])
      case Some(c) => Some(c)
      case None => FirstAvailable(names[1..], available)
  }

  function TrimEach(parts: seq<string>): (r: seq<string>)
    ensures |r| == |parts| && forall i :: 0 <= i < |r| ==> r[i] == Trim(parts[i])
  {
    seq(|parts|, i requires 0 <= i < |parts| => Trim(parts[i]))
  }

  function Negotiate(available: seq<Compression>, requested: Option<string>, accepted: Option<string>, acceptHeader: string): Negotiated {
    var request := if requested.Some? && requested.value != "identity" then Find(available, requested.value) else None;
    var error := if requested.Some? && requested.value != "identity" && request.None?
                 then Some(UnknownCompression(requested.value, available, acceptHeader)) else None;
    var response := if accepted.None? || accepted.value == "" then request
                    else FirstAvailable(TrimEach(Split(accepted.value, ",")), available);
    Negotiated(request, response, error)
  }

  method CompressionNegotiate(available: seq<Compression>, requested: Option<string>, accepted: Option<string>, acceptHeader: string)
    returns (r: Negotiated)
    ensures r == Negotiate(available, requested, accepted, acceptHeader)
  {
    var request: Option<Compression> := None;
    var response: Option<Compression> := None;
    var error: Option<Thrown> := None;
    if requested.Some? && requested.value != "identity" {
      var found := Find(available, requested.value);
      if found.Some? {
        request := found;
      } else {
        error := Some(UnknownCompression(requested.value, available, acceptHeader));
      }
    }
    if accepted.None? || accepted.value == "" {
      response := request;
    } else {
      var names := TrimEach(Split(accepted.value, ","));
      var i := 0;
      while i < |names|
        invariant i <= |names| && response.None?
        invariant FirstAvailable(names, available) == FirstAvailable(names[i..], available)
      {
        assert names[i..][0] == names[i] && names[i..][1..] == names[i + 1..];
        var found := Find(available, names[i]);
        if found.Some? {
          response := found;
          break;
        }
        i := i + 1;
      }
    }
    return Negotiated(request, response, error);
  }

  /** The header of the response. */
  function ResponseHeader(base: Headers, kind: MethodKind, n: Negotiated): Headers {
    if n.response.Some? then base[EncodingHeader(kind) := Normalize(n.response.value.name)] else base
  }

  // ---- client response ---------------------------------------------------

  /** The compression to use for the response body, or "unsupported response encoding". */
  function ValidateResponseCompression(kind: MethodKind, accept: seq<Compression>, headers: Headers): Result<Option<Compression>, Thrown> {
    if EncodingHeader(kind) !in headers || Lower(headers[EncodingHeader(kind)]) == "identity" then Ok(None)
    else
      var encoding := headers[EncodingHeader(kind)];
      match Find(accept, encoding)
      case Some(c) => Ok(Some(c))
      case None => Err(Raised(ConnectError(INVALID_ARGUMENT, "unsupported response encoding \"" + encoding + "\"", Copy(headers), [])))
  }

  // ---- the exchange ------------------------------------------------------

  /** A name that survives the accept list: neither empty nor "identity" in any case, no comma, no white space around it. */
  predicate IsEncodingName(name: string) {
    name != "" && ',' !in name && Stripped(IsSpace, name) && Lower(name) != "identity"
  }

  predicate NamesAreGood(list: seq<Compression>) {
    forall i :: 0 <= i < |list| ==> IsEncodingName(list[i].name)
  }

  lemma GoodNameIsNormalized(name: string)
    requires Stripped(IsSpace, name)
    ensures Normalize(name) == name && Trim(name) == name
  {
  }

  lemma {:induction false} JoinIsStripped(names: seq<string>)
    requires names != [] && forall i :: 0 <= i < |names| ==> names[i] != "" && Stripped(IsSpace, names[i])
    ensures Join(names, ",") != "" && Stripped(IsSpace, Join(names, ","))
  {
    if |names| > 1 {
      var rest := Join(names[1..], ",");
      JoinIsStripped(names[1..]);
      var all := names[0] + "," + rest;
      assert all[0] == names[0][0] && all[|all| - 1] == rest[|rest| - 1];
    }
  }

  /** The server reads the client's preferences as they were, in order. */
  lemma AcceptListRoundTrip(accept: seq<Compression>)
    requires accept != [] && NamesAreGood(accept)
    ensures
      var value := Normalize(Join(Names(accept), ","));
      value != "" && TrimEach(Split(value, ",")) == Names(accept)
  {
    var names := Names(accept);
    JoinIsStripped(names);
    GoodNameIsNormalized(Join(names, ","));
    SplitJoin(names, ",");
    forall i | 0 <= i < |names| ensures Trim(names[i]) == names[i] {
      GoodNameIsNormalized(names[i]);
    }
    assert TrimEach(names) == names;
  }

  /** Server and client choose the same: what both sides end up with for the response body. */
  function Exchange(accept: seq<Compression>, send: Option<Compression>, available: seq<Compression>, kind: MethodKind,
                    requestBase: Headers, responseBase: Headers): (Option<Compression>, Result<Option<Compression>, Thrown>)
  {
    var request := RequestHeader(requestBase, kind, accept, send);
    var n := Negotiate(available, Get(request, EncodingHeader(kind)), Get(request, AcceptHeader(kind)), AcceptHeader(kind));
    (n.response, ValidateResponseCompression(kind, accept, ResponseHeader(responseBase, kind, n)))
  }

  /** `c` is available, and has the name at position `i`; no name before that is available. */
  ghost predicate IsPreferred(names: seq<string>, available: seq<Compression>, i: nat, c: Compression) {
    && i < |names| && c in available && names[i] == c.name
    && forall j, d :: 0 <= j < i && d in available ==> d.name != names[j]
  }

  /** The first preference that the server has, if there is any. */
  ghost predicate IsChoice(choice: Option<Compression>, names: seq<string>, available: seq<Compression>) {
    match choice
    case None => forall i, c :: 0 <= i < |names| && c in available ==> names[i] != c.name
    case Some(c) => exists i: nat :: IsPreferred(names, available, i, c)
  }

  lemma {:induction false} FirstAvailableIs(names: seq<string>, available: seq<Compression>)
    ensures IsChoice(FirstAvailable(names, available), names, available)
  {
    if names != [] {
      var rest, r := names[1..], FirstAvailable(names[1..], available);
      if Find(available, names[0]).None? {
        FirstAvailableIs(rest, available);
        if r.Some? {
          var i: nat :| IsPreferred(rest, available, i, r.value);
          PreferredLater(names, available, i, r.value);
          assert IsPreferred(names, available, i + 1, r.value);
        } else {
          assert forall i :: 0 < i < |names| ==> names[i] == rest[i - 1];
        }
      } else {
        assert IsPreferred(names, available, 0, Find(available, names[0]).value);
      }
    }
  }

  lemma PreferredLater(names: seq<string>, available: seq<Compression>, i: nat, c: Compression)
    requires names != [] && IsPreferred(names[1..], available, i, c)
    requires forall d :: d in available ==> d.name != names[0]
    ensures IsPreferred(names, available, i + 1, c)
  {
  }

  /** The response compression for every list of preferences, with or without white space around its names:
      the first of the names that the server has. Without a list, it is that of the request. */
  lemma ResponseIsFirstChoice(available: seq<Compression>, requested: Option<string>, parts: seq<string>, names: seq<string>, acceptHeader: string)
    requires parts != [] && |names| == |parts| && Join(parts, ",") != ""
    requires forall i :: 0 <= i < |parts| ==> ',' !in parts[i] && Trim(parts[i]) == names[i]
    ensures IsChoice(Negotiate(available, requested, Some(Join(parts, ",")), acceptHeader).response, names, available)
    ensures
      var n := Negotiate(available, requested, None, acceptHeader);
      n.response == n.request && n == Negotiate(available, requested, Some(""), acceptHeader)
  {
    SplitJoin(parts, ",");
    assert TrimEach(parts) == names;
    FirstAvailableIs(names, available);
  }

  /** The request compression: none if the header is missing or "identity"; otherwise the one of that name, or an error with
      the code Unimplemented (12), the name, and the accepted names both in its message and in its metadata. */
  lemma RequestIsNamed(available: seq<Compression>, requested: Option<string>, accepted: Option<string>, acceptHeader: string)
    ensures
      var n := Negotiate(available, requested, accepted, acceptHeader);
      match requested
      case None => n.request == None && n.error == None
      case Some(name) =>
        if name == "identity" then n.request == None && n.error == None
        else if exists c :: c in available && c.name == name then
          n.request.Some? && n.request.value in available && n.request.value.name == name && n.error == None
        else
          var list := Join(Names(available), ",");
          && n.request == None
          && n.error == Some(Raised(ConnectError(12,
               "unknown compression \"" + name + "\": supported encodings are " + list, map[acceptHeader := Normalize(list)], [])))
  {
  }

  /** Negotiation is closed: the response is encoded with the client's first preference that the server has,
      and the client finds a compression of that name, so that it never meets an unsupported encoding. */
  lemma NegotiationIsClosed(accept: seq<Compression>, send: Option<Compression>, available: seq<Compression>, kind: MethodKind,
                            requestBase: Headers, responseBase: Headers)
    requires accept != [] && NamesAreGood(accept) && EncodingHeader(kind) !in responseBase
    ensures
      var (server, client) := Exchange(accept, send, available, kind, requestBase, responseBase);
      && server == FirstAvailable(Names(accept), available)
      && client.Ok? && (client.value.Some? <==> server.Some?)
      && (server.Some? ==> client.value.value in accept && client.value.value.name == server.value.name)
  {
    HeaderNames(kind);
    AcceptListRoundTrip(accept);
    FirstAvailableIs(Names(accept), available);
    var server := Exchange(accept, send, available, kind, requestBase, responseBase).0;
    if server.Some? {
      var i: nat :| IsPreferred(Names(accept), available, i, server.value);
      GoodNameIsNormalized(server.value.name);
    }
  }

  lemma EncodingHeaderIsLower(kind: MethodKind)
    ensures Lower(EncodingHeader(kind)) == EncodingHeader(kind)
  {
  }

  lemma AcceptHeaderIsLower(kind: MethodKind)
    ensures Lower(AcceptHeader(kind)) == AcceptHeader(kind)
  {
  }

  lemma HeaderNames(kind: MethodKind)
    ensures Lower(EncodingHeader(kind)) == EncodingHeader(kind) && Lower(AcceptHeader(kind)) == AcceptHeader(kind)
    ensures EncodingHeader(kind) != AcceptHeader(kind)
  {
    EncodingHeaderIsLower(kind);
    AcceptHeaderIsLower(kind);
    assert |EncodingHeader(kind)| != |AcceptHeader(kind)|;
  }

  /** The server decodes a request body with the compression it was sent with, and rejects the call as
      Unimplemented exactly when it does not have it. */
  lemma RequestIsUnderstood(accept: seq<Compression>, send: Option<Compression>, available: seq<Compression>, kind: MethodKind, base: Headers)
    requires (send.Some? ==> IsEncodingName(send.value.name)) && EncodingHeader(kind) !in base
    ensures
      var request := RequestHeader(base, kind, accept, send);
      var n := Negotiate(available, Get(request, EncodingHeader(kind)), Get(request, AcceptHeader(kind)), AcceptHeader(kind));
      && (n.error.None? <==> send.None? || exists c :: c in available && c.name == send.value.name)
      && (n.error.Some? ==> n.error.value.Raised? && n.error.value.error.code == UNIMPLEMENTED)
      && (n.request.Some? <==> n.error.None? && send.Some?)
      && (n.request.Some? ==> n.request.value in available && n.request.value.name == send.value.name)
  {
    HeaderNames(kind);
    if send.Some? {
      GoodNameIsNormalized(send.value.name);
      assert Lower("identity") == "identity";
    }
  }

  /** A response whose header says "identity", in any case, is not compressed. */
  lemma IdentityInAnyCase(kind: MethodKind, accept: seq<Compression>, headers: Headers)
    requires EncodingHeader(kind) in headers && |headers[EncodingHeader(kind)]| == 8
    requires forall i :: 0 <= i < 8 ==> headers[EncodingHeader(kind)][i] in {"identity"[i], "IDENTITY"[i]}
    ensures ValidateResponseCompression(kind, accept, headers) == Ok(None)
  {
    var encoding := headers[EncodingHeader(kind)];
    assert Lower("IDENTITY") == "identity";
    assert forall i :: 0 <= i < 8 ==> Lower(encoding)[i] == "identity"[i];
    assert Lower(encoding) == "identity";
  }

  /** Exactly when the client meets an encoding it does not support: it accepts none, but sends with one that the
      server has, so that the server answers in kind. The code is then InvalidArgument (3). */
  lemma UnsupportedEncodingIff(accept: seq<Compression>, send: Option<Compression>, available: seq<Compression>, kind: MethodKind,
                               requestBase: Headers, responseBase: Headers)
    requires NamesAreGood(accept) && (send.Some? ==> IsEncodingName(send.value.name))
    requires EncodingHeader(kind) !in responseBase
    requires EncodingHeader(kind) !in requestBase && AcceptHeader(kind) !in requestBase
    ensures Exchange(accept, send, available, kind, requestBase, responseBase).1.Err?
       <==> accept == [] && send.Some? && exists c :: c in available && c.name == send.value.name
    ensures
      var client := Exchange(accept, send, available, kind, requestBase, responseBase).1;
      client.Err? ==> client.error.Raised? && client.error.error.code == 3
  {
    HeaderNames(kind);
    if accept != [] {
      NegotiationIsClosed(accept, send, available, kind, requestBase, responseBase);
    } else if send.Some? {
      GoodNameIsNormalized(send.value.name);
      assert Lower("identity") == "identity";
    }
  }
}
