/** Header fields (the Fetch API's Headers), Connect errors, and asynchronous streams. */
module Http {
  import opened Base
  import opened Js

  // ---- errors ------------------------------------------------------------

  // The values of the enum Code that the modelled code names.
  const CANCELED := 1
  const INVALID_ARGUMENT := 3
  const RESOURCE_EXHAUSTED := 8
  const ABORTED := 10
  const UNIMPLEMENTED := 12
  const INTERNAL := 13
  const UNAVAILABLE := 14
  const DATA_LOSS := 15

  /** A JSON value. Fields are listed in the order in which Object.entries enumerates them, and a number (a double)
      is named by its bits. */
  datatype Json =
    | Null
    | Bool(b: bool)
    | Number(bits: nat)
    | Str(s: string)
    | Arr(elements: seq<Json>)
    | Obj(fields: seq<(string, Json)>)

  /** A double that JSON can write, and read back: neither infinite, nor NaN, nor negative zero. */
  predicate IsJsonNumber(bits: nat) {
    bits < 0x1_0000_0000_0000_0000 && bits / 0x10_0000_0000_0000 % 0x800 != 0x7ff && bits != 0x8000_0000_0000_0000
  }

  const NO_INDEX: nat := 0xffff_ffff

  /** An array index in canonical form. */
  predicate IsIndex(key: string) {
    && key != [] && (forall c :: c in key ==> IsDigit(c)) && (key[0] == '0' ==> |key| == 1)
    && LeadingDigits(key, 0) < NO_INDEX
  }

  /** Objects enumerate array indices first, in ascending order, and then other keys. */
  function Rank(key: string): nat {
    if IsIndex(key) then LeadingDigits(key, 0) else NO_INDEX
  }

  predicate InKeyOrder(fields: seq<(string, Json)>) {
    forall i, j :: 0 <= i < j < |fields| ==> Rank(fields[i].0) <= Rank(fields[j].0)
  }

  predicate DistinctKeys(fields: seq<(string, Json)>) {
    forall i, j :: 0 <= i < j < |fields| ==> fields[i].0 != fields[j].0
  }

  /** A value of the runtime that JSON can carry. */
  predicate IsValue(j: Json) {
    match j
    case Number(bits) => IsJsonNumber(bits)
    case Arr(elements) => forall i :: 0 <= i < |elements| ==> IsValue(elements[i])
    case Obj(fields) =>
      DistinctKeys(fields) && InKeyOrder(fields) && forall i :: 0 <= i < |fields| ==> IsValue(fields[i].1)
    case _ => true
  }

  /** A detail of an error: a protobuf message about to be sent, with its JSON form if it has one, or a
      detail that was parsed from the wire. */
  datatype Detail =
    | MessageDetail(typeName: string, payload: seq<byte>, debug: Option<Json>)
    | IncomingDetail(typeName: string, payload: seq<byte>, debug: Option<Json>)

  /** The range of a code: an enum, which protobuf sends as an int32. */
  type Int32 = n: int | -0x8000_0000 <= n < 0x8000_0000

  datatype ConnectError = ConnectError(code: Int32, message: string, metadata: Headers, details: seq<Detail>)

  /** What JavaScript code can throw: a ConnectError, another value, or the value undefined. */
  datatype Thrown = Raised(error: ConnectError) | Foreign(id: nat) | Undefined

  const TYPE_ERROR := Foreign(0)

  function Failure(code: Int32, message: string): Thrown {
    Raised(ConnectError(code, message, map[], []))
  }

  // ---- streams -----------------------------------------------------------

  datatype Ending = Done | Fails(reason: Thrown)

  /** An asynchronous iterable, as a consumer that reads it to the end observes it. */
  datatype Stream<T> = Stream(items: seq<T>, end: Ending)

  // ---- header fields -----------------------------------------------------

  /** Field names in lower case, and the values of each name joined with ", ". */
  type Headers = map<string, string>

  predicate IsTokenChar(c: char) {
    var n := c as int;
    || 'a' <= c <= 'z' || 'A' <= c <= 'Z' || IsDigit(c)
    || n == 33 || 35 <= n <= 39 || n == 42 || n == 43 || n == 45 || n == 46 || 94 <= n <= 96 || n == 124 || n == 126
  }

  predicate IsToken(s: string) {
    s != [] && forall c :: c in s ==> IsTokenChar(c)
  }

  predicate IsHttpSpace(c: char) {
    var n := c as int;
    n == 9 || n == 10 || n == 13 || n == 32
  }

  function Normalize(value: string): string {
    Strip(IsHttpSpace, value)
  }

  predicate IsFieldValue(value: string) {
    forall c :: c in value ==> 0 < c as int < 256 && c as int != 10 && c as int != 13
  }

  /** A name that a Headers object lists: a lower-case token. */
  predicate IsName(s: string) {
    IsToken(s) && Lower(s) == s
  }

  /** What every Headers object satisfies. */
  ghost predicate WellFormed(h: Headers) {
    forall k :: k in h ==> IsName(k) && IsFieldValue(h[k])
  }

  function Get(h: Headers, name: string): Option<string> {
    if Lower(name) in h then Some(h[Lower(name)]) else None
  }

  function Append(h: Headers, name: string, value: string): Result<Headers, Thrown> {
    if !IsToken(name) || !IsFieldValue(Normalize(value)) then Err(TYPE_ERROR)
    else Ok(h[Lower(name) := Combined(h, Lower(name), value)])
  }

  /** Appends the listed fields one after the other. */
  function AppendList(h: Headers, fields: seq<(string, string)>): Result<Headers, Thrown>
    decreases |fields|
  {
    if fields == [] then Ok(h)
    else match Append(h, fields[0].0, fields[0].1)
      case Ok(h') => AppendList(h', fields[1..])
      case Err(e) => Err(e)
  }

  /** An order in which forEach may visit the fields: every name once. */
  ghost predicate Enumerates(order: seq<string>, h: Headers) {
    Lists(order, h) && forall k :: k in h ==> k in order
  }

  function Entries(order: seq<string>, h: Headers): (fields: seq<(string, string)>)
    requires forall k :: k in order ==> k in h
    ensures |fields| == |order|
    ensures forall i :: 0 <= i < |order| ==> fields[i] == (order[i], h[order[i]])
  {
    seq(|order|, i requires 0 <= i < |order| => (order[i], h[order[i]]))
  }

  /** `new Headers(h)`: a copy, whose values are normalized once more. */
  function Copy(h: Headers): Headers {
    map k | k in h :: Normalize(h[k])
  }

  /** The value of a name after `value` was appended to it. */
  function Combined(h: Headers, name: string, value: string): string {
    if name in h then h[name] + ", " + Normalize(value) else Normalize(value)
  }

  /** The fields of `src` appended to `h`, in any order. */
  function AppendAll(h: Headers, src: Headers): Headers {
    map k | k in h.Keys + src.Keys ::
      if k in src then Combined(h, k, src[k]) else h[k]
  }

  lemma NormalizedIsFieldValue(value: string)
    requires IsFieldValue(value)
    ensures IsFieldValue(Normalize(value))
  {
    StripFixpoint(IsHttpSpace, value);
  }

  lemma AppendNamed(h: Headers, name: string, value: string)
    requires IsName(name) && IsFieldValue(value)
    ensures Append(h, name, value)
         == Ok(h[name := Combined(h, name, value)])
  {
    NormalizedIsFieldValue(value);
  }

  function Restrict(h: Headers, order: seq<string>): Headers {
    map k | k in h && k in order :: h[k]
  }

  lemma AppendFirst(h: Headers, src: Headers, name: string, rest: seq<string>, order: seq<string>, h': Headers)
    requires name in src && name !in rest && forall k :: k in order <==> k == name || k in rest
    requires h' == h[name := Combined(h, name, src[name])]
    ensures AppendAll(h', Restrict(src, rest)) == AppendAll(h, Restrict(src, order))
  {
    var a, b := AppendAll(h', Restrict(src, rest)), AppendAll(h, Restrict(src, order));
    forall k ensures k in a <==> k in b {}
    forall k | k in a ensures a[k] == b[k] {
      if k == name {
      } else if k in rest {
      } else {
      }
    }
  }

  /** Names of well-formed fields of `h`, none of them twice. */
  ghost predicate Lists(order: seq<string>, h: Headers) {
    && (forall k :: k in order ==> k in h)
    && forall i, j :: 0 <= i < j < |order| ==> order[i] != order[j]
  }

  /** Appending the fields of a Headers object to another gives the same object in every order. */
  lemma {:induction false} AppendInOrder(h: Headers, src: Headers, order: seq<string>)
    requires WellFormed(src) && Lists(order, src)
    ensures AppendList(h, Entries(order, src)) == Ok(AppendAll(h, Restrict(src, order)))
    decreases |order|
  {
    if order == [] {
      assert Restrict(src, order) == map[];
      assert AppendAll(h, map[]) == h;
    } else {
      var name, rest := order[0], order[1..];
      var h' := h[name := Combined(h, name, src[name])];
      AppendStep(h, src, order);
      AppendInOrder(h', src, rest);
      AppendFirst(h, src, name, rest, order, h');
    }
  }

  lemma AppendStep(h: Headers, src: Headers, order: seq<string>)
    requires WellFormed(src) && Lists(order, src) && order != []
    requires Lists(order[1..], src)
    ensures order[0] in src
    ensures AppendList(h, Entries(order, src))
         == AppendList(h[order[0] := Combined(h, order[0], src[order[0]])], Entries(order[1..], src))
  {
    var name := order[0];
    assert name in order;
    AppendNamed(h, name, src[name]);
    assert Entries(order, src)[1..] == Entries(order[1..], src);
  }

  lemma AppendEntries(h: Headers, src: Headers, order: seq<string>)
    requires WellFormed(src) && Enumerates(order, src)
    ensures AppendList(h, Entries(order, src)) == Ok(AppendAll(h, src))
  {
    AppendInOrder(h, src, order);
    assert Restrict(src, order) == src;
  }

  /** Appending well-formed fields keeps an object well formed. */
  lemma AppendAllWellFormed(h: Headers, src: Headers)
    requires WellFormed(h) && WellFormed(src)
    ensures WellFormed(AppendAll(h, src))
  {
    var r := AppendAll(h, src);
    forall k | k in r ensures IsName(k) && IsFieldValue(r[k]) {
      if k in src {
        NormalizedIsFieldValue(src[k]);
      }
    }
  }

  lemma CopyIsAppend(src: Headers)
    ensures AppendAll(map[], src) == Copy(src)
  {
  }

  // ---- several values of a name ------------------------------------------

  /** The normalized values of the fields with a name, in any case, in their order. */
  function ValuesFor(fields: seq<(string, string)>, name: string): seq<string> {
    if fields == [] then []
    else (if Lower(fields[0].0) == name then [Normalize(fields[0].1)] else []) + ValuesFor(fields[1..], name)
  }

  /** What a name holds after values were appended, each behind a comma. */
  function JoinedTo(held: Option<string>, values: seq<string>): Option<string> {
    if values == [] then held
    else Some(Join((if held.Some? then [held.value] else []) + values, ", "))
  }

  function Held(h: Headers, name: string): Option<string> {
    if name in h then Some(h[name]) else None
  }

  predicate IsField(field: (string, string)) {
    IsToken(field.0) && IsFieldValue(Normalize(field.1))
  }

  lemma {:induction false} JoinMerge(a: string, b: string, rest: seq<string>)
    ensures Join([a, b] + rest, ", ") == Join([a + ", " + b] + rest, ", ")
  {
    assert ([a, b] + rest)[1..] == [b] + rest && ([a + ", " + b] + rest)[1..] == rest && ([b] + rest)[1..] == rest;
    if rest == [] {
      assert Join([b], ", ") == b;
    } else {
      ConcatAssociates(a + ", ", b + ", ", Join(rest, ", "));
      ConcatAssociates(a + ", ", b, ", ");
    }
  }

  lemma JoinPair(a: string, b: string)
    ensures Join([a] + [b], ", ") == a + ", " + b
  {
    assert ([a] + [b])[1..] == [b];
  }

  lemma JoinedOnce(held: Option<string>, value: string, values: seq<string>)
    ensures JoinedTo(JoinedTo(held, [value]), values) == JoinedTo(held, [value] + values)
  {
    if values == [] {
      assert [value] + values == [value];
    } else if held.Some? {
      assert [held.value] + ([value] + values) == [held.value, value] + values;
      JoinPair(held.value, value);
      JoinMerge(held.value, value, values);
    } else {
      assert [] + [value] == [value] && [] + ([value] + values) == [value] + values;
    }
  }

  lemma {:induction false} JoinedTwice(held: Option<string>, a: seq<string>, b: seq<string>)
    ensures JoinedTo(JoinedTo(held, a), b) == JoinedTo(held, a + b)
    decreases |a|
  {
    if a == [] {
      assert a + b == b;
    } else {
      assert [a[0]] + a[1..] == a && [a[0]] + (a[1..] + b) == a + b;
      JoinedOnce(held, a[0], a[1..]);
      JoinedTwice(JoinedTo(held, [a[0]]), a[1..], b);
      JoinedOnce(held, a[0], a[1..] + b);
    }
  }

  lemma AppendHolds(h: Headers, field: (string, string), name: string)
    requires IsField(field)
    ensures Append(h, field.0, field.1).Ok?
    ensures Held(Append(h, field.0, field.1).value, name)
         == JoinedTo(Held(h, name), if Lower(field.0) == name then [Normalize(field.1)] else [])
  {
    if Lower(field.0) == name {
      var v := Normalize(field.1);
      assert [] + [v] == [v];
      if name in h {
        JoinPair(h[name], v);
      }
    }
  }

  /** Appending fields, whose names may repeat, in any case: a name holds what it held, and behind that all values
      for it, in order. Exactly valid fields can be appended. */
  lemma {:induction false} AppendListHolds(h: Headers, fields: seq<(string, string)>, name: string)
    ensures AppendList(h, fields).Ok? <==> forall i :: 0 <= i < |fields| ==> IsField(fields[i])
    ensures AppendList(h, fields).Ok? ==>
      Held(AppendList(h, fields).value, name) == JoinedTo(Held(h, name), ValuesFor(fields, name))
    decreases |fields|
  {
    if fields != [] {
      var rest := fields[1..];
      if IsField(fields[0]) {
        AppendHolds(h, fields[0], name);
        var h' := Append(h, fields[0].0, fields[0].1).value;
        AppendListHolds(h', rest, name);
        JoinedTwice(Held(h, name), if Lower(fields[0].0) == name then [Normalize(fields[0].1)] else [], ValuesFor(rest, name));
      }
      assert forall i :: 0 < i < |fields| ==> fields[i] == rest[i - 1];
    }
  }

  /** Merging: a name of both sides holds the value of the first, and behind it the value of the second. */
  lemma MergeOrder(h: Headers, src: Headers, name: string)
    ensures Held(AppendAll(h, src), name)
         == JoinedTo(Held(h, name), if name in src then [Normalize(src[name])] else [])
  {
    if name in src {
      var v := Normalize(src[name]);
      assert [] + [v] == [v];
      if name in h {
        JoinPair(h[name], v);
      }
    }
  }
}
