/** The consumers at the end of a client's pipeline: they pass messages on, and insist on exactly one end. */
module Sinks {
  import opened Base
  import opened Http
  import opened Pipeline

  /** How a protocol reads an end of stream: the error it carries, the metadata, and the texts of its complaints. */
  datatype EndRules<!E> = EndRules(
    error: E -> Option<Thrown>, metadata: E -> Headers,
    extraEnd: string, extraMessage: string, missingEnd: string)

  /** What the application sees: messages, trailers, and how the iteration ended. */
  datatype Received<+M> = Received(messages: seq<M>, trailer: Headers, end: Ending)

  function Protocol(text: string): Ending {
    Fails(Failure(INVALID_ARGUMENT, "protocol error: " + text))
  }

  // ---- specification -----------------------------------------------------

  /** The number of messages before the first end. */
  function Leading<M, E>(items: seq<Parsed<M, E>>): (n: nat)
    ensures n <= |items|
    ensures forall i :: 0 <= i < n ==> items[i].Message?
    ensures n < |items| ==> items[n].End?
  {
    if items == [] || items[0].End? then 0 else 1 + Leading(items[1..])
  }

  function Payloads<M, E>(items: seq<Parsed<M, E>>): (r: seq<M>)
    requires forall i :: 0 <= i < |items| ==> items[i].Message?
    ensures |r| == |items| && forall i :: 0 <= i < |r| ==> r[i] == items[i].message
  {
    seq(|items|, i requires 0 <= i < |items| => items[i].message)
  }

  /** The result of consuming parsed envelopes to their end. */
  function Consume<M, E>(source: Stream<Parsed<M, E>>, rules: EndRules<E>): Received<M> {
    var n := Leading(source.items);
    var messages := Payloads(source.items[..n]);
    if n == |source.items| then
      Received(messages, map[], if source.end.Fails? then source.end else Protocol(rules.missingEnd))
    else
      var end := source.items[n].end;
      if rules.error(end).Some? then Received(messages, map[], Fails(rules.error(end).value))
      else Received(messages, Copy(rules.metadata(end)),
        if n + 1 == |source.items| then source.end
        else Protocol(if source.items[n + 1].End? then rules.extraEnd else rules.extraMessage))
  }

  /** A sink finishes normally exactly on messages followed by one final, error-free end. */
  ghost predicate MessagesThenOneEnd<M, E>(source: Stream<Parsed<M, E>>, rules: EndRules<E>) {
    var last := |source.items| - 1;
    && source.end.Done?
    && last >= 0 && source.items[last].End? && rules.error(source.items[last].end).None?
    && forall i :: 0 <= i < last ==> source.items[i].Message?
  }

  lemma SinkAccepts<M, E>(source: Stream<Parsed<M, E>>, rules: EndRules<E>)
    ensures Consume(source, rules).end.Done? <==> MessagesThenOneEnd(source, rules)
    ensures Consume(source, rules).end.Done? ==>
      && Consume(source, rules).messages == Payloads(source.items[..|source.items| - 1])
      && Consume(source, rules).trailer == Copy(rules.metadata(source.items[|source.items| - 1].end))
  {
  }

  /** Every outcome of a sink on `k` messages and what follows them: without an end, the source's own error or a complaint;
      with an end, its error, or else the source's ending, or a complaint about what follows the end. */
  lemma SinkOutcomes<M, E>(source: Stream<Parsed<M, E>>, rules: EndRules<E>, k: nat)
    requires k <= |source.items| && forall i :: 0 <= i < k ==> source.items[i].Message?
    requires k < |source.items| ==> source.items[k].End?
    ensures
      var r := Consume(source, rules);
      && |r.messages| == k && (forall i :: 0 <= i < k ==> r.messages[i] == source.items[i].message)
      && (k == |source.items| ==>
            r.end == if source.end.Fails? then source.end else Fails(Raised(ConnectError(3, "protocol error: " + rules.missingEnd, map[], []))))
      && (k < |source.items| ==>
            match rules.error(source.items[k].end)
            case Some(reason) => r.end == Fails(reason)
            case None =>
              if k + 1 == |source.items| then r.end == source.end
              else
                var text := if source.items[k + 1].End? then rules.extraEnd else rules.extraMessage;
                r.end == Fails(Raised(ConnectError(3, "protocol error: " + text, map[], []))))
  {
    assert Leading(source.items) == k;
  }

  /** All messages of a stream, with its ends left out. */
  function AllMessages<M, E>(items: seq<Parsed<M, E>>): seq<M> {
    if items == [] then []
    else (if items[0].Message? then [items[0].message] else []) + AllMessages(items[1..])
  }

  /** Whatever the stream, what was yielded is a prefix of its messages. */
  lemma YieldedIsPrefix<M, E>(source: Stream<Parsed<M, E>>, rules: EndRules<E>)
    ensures Consume(source, rules).messages <= AllMessages(source.items)
  {
    LeadingArePrefix(source.items);
  }

  lemma {:induction false} LeadingArePrefix<M, E>(items: seq<Parsed<M, E>>)
    ensures Payloads(items[..Leading(items)]) <= AllMessages(items)
  {
    if items != [] && items[0].Message? {
      LeadingArePrefix(items[1..]);
      var n := Leading(items);
      assert items[..n][1..] == items[1..][..n - 1];
      assert Payloads(items[..n]) == [items[0].message] + Payloads(items[1..][..n - 1]);
    }
  }

  // ---- the sinks ---------------------------------------------------------

  /** The loop of the Connect transport, and of the gRPC-web transport when no header status was found. */
  method StreamSink<M, E>(source: Stream<Parsed<M, E>>, rules: EndRules<E>) returns (r: Received<M>)
    ensures r == Consume(source, rules)
  {
    var messages: seq<M> := [];
    var trailer: Headers := map[];
    var endReceived := false;
    ghost var n := Leading(source.items);
    for i := 0 to |source.items|
      invariant !endReceived ==> i <= n && trailer == map[] && messages == Payloads(source.items[..i])
      invariant endReceived ==> i == n + 1 && messages == Payloads(source.items[..n])
      invariant endReceived ==> rules.error(source.items[n].end).None? && trailer == Copy(rules.metadata(source.items[n].end))
    {
      var chunk := source.items[i];
      if chunk.End? {
        if endReceived {
          return Received(messages, trailer, Protocol(rules.extraEnd));
        }
        endReceived := true;
        var error := rules.error(chunk.end);
        if error.Some? {
          return Received(messages, trailer, Fails(error.value));
        }
        trailer := Copy(rules.metadata(chunk.end));
      } else {
        if endReceived {
          return Received(messages, trailer, Protocol(rules.extraMessage));
        }
        messages := messages + [chunk.message];
      }
    }
    if source.end.Fails? {
      return Received(messages, trailer, source.end);
    }
    if !endReceived {
      return Received(messages, trailer, Protocol(rules.missingEnd));
    }
    return Received(messages, trailer, Done);
  }

  /** The gRPC-web sink after a `grpc-status: 0` header: the body must be empty. */
  method TrailersOnlySink<M, E>(source: Stream<Parsed<M, E>>) returns (r: Received<M>)
    ensures r.messages == [] && r.trailer == map[]
    ensures r.end.Done? <==> source == Stream([], Done)
    ensures source.items == [] ==> r.end == source.end
    ensures source.items != [] ==> r.end.Fails? && IsProtocolError(r.end.reason)
  {
    if source.items != [] {
      return Received([], map[], Protocol("extra data for trailers-only"));
    }
    return Received([], map[], source.end);
  }

  ghost predicate IsUnary<M, E>(source: Stream<Parsed<M, E>>, rules: EndRules<E>, m: M, t: E) {
    && rules.error(t).None? && source.end.Done?
    && (source.items == [Message(m), End(t)] || source.items == [End(t), Message(m)])
  }

  predicate IsProtocolError(reason: Thrown) {
    reason.Raised? && reason.error.code == 3 && "protocol error: " <= reason.error.message
  }

  /** A trailer, on its own or with a message on either side. */
  ghost predicate HasOneTrailer<M, E>(items: seq<Parsed<M, E>>, t: E) {
    || items == [End(t)]
    || (|items| == 2 && ((items[0].Message? && items[1] == End(t)) || (items[0] == End(t) && items[1].Message?)))
  }

  /** The unary gRPC-web sink: one message and one trailer, in either order. */
  method UnarySink<M, E>(source: Stream<Parsed<M, E>>, rules: EndRules<E>) returns (r: Result<(M, E), Thrown>)
    ensures r.Ok? ==> IsUnary(source, rules, r.value.0, r.value.1)
    ensures forall m, t :: IsUnary(source, rules, m, t) ==> r == Ok((m, t))
    // An error in the only trailer is raised, with a message before it or after it, or without one.
    ensures forall t :: HasOneTrailer(source.items, t) && source.end.Done? && rules.error(t).Some? ==> r == Err(rules.error(t).value)
    // Two messages, two trailers, or more of anything, however the source ends.
    ensures |source.items| >= 2 && (source.items[0].End? <==> source.items[1].End?) ==> r.Err? && IsProtocolError(r.error)
    ensures |source.items| > 2 ==> r.Err? && IsProtocolError(r.error)
    ensures source.end.Done? && |source.items| <= 1 && (forall t :: End(t) in source.items ==> rules.error(t).None?) ==>
      r.Err? && IsProtocolError(r.error)
    // Otherwise an error of the source itself.
    ensures source.end.Fails? && (|source.items| <= 1 || (|source.items| == 2 && source.items[0].End? != source.items[1].End?)) ==>
      r == Err(source.end.reason)
  {
    var message: Option<M> := None;
    var trailer: Option<E> := None;
    for i := 0 to |source.items|
      invariant i == (if message.Some? then 1 else 0) + (if trailer.Some? then 1 else 0)
      invariant message.Some? ==> Message(message.value) in source.items[..i]
      invariant trailer.Some? ==> End(trailer.value) in source.items[..i]
    {
      var env := source.items[i];
      if env.End? {
        if trailer.Some? {
          return Err(Protocol("received extra trailer").reason);
        }
        trailer := Some(env.end);
      } else {
        if message.Some? {
          return Err(Protocol("received extra output message for unary method").reason);
        }
        message := Some(env.message);
      }
    }
    if source.end.Fails? {
      return Err(source.end.reason);
    }
    if trailer.None? {
      return Err(Protocol(rules.missingEnd).reason);
    }
    if rules.error(trailer.value).Some? {
      return Err(rules.error(trailer.value).value);
    }
    if message.None? {
      return Err(Protocol("missing output message for unary method").reason);
    }
    return Ok((message.value, trailer.value));
  }
}
