/** unwrapNodeErrorChain: walks the "cause" properties of an error, which may form a cycle, and the Connect
    code that a chain of Node.js errors stands for. */
module NodeError {
  import opened Base
  import opened Http

  /** A value that was thrown: an object of class Error, by its identity, or something else. */
  datatype Reason = ErrorObject(id: nat) | OtherValue

  /** The property "cause" of those errors that have one. */
  type Causes = map<nat, Reason>

  // ---- specification -----------------------------------------------------

  /** The error that is the cause of an error, if there is one. */
  function CauseOf(causes: Causes, id: nat): Option<nat> {
    if id in causes && causes[id].ErrorObject? then Some(causes[id].id) else None
  }

  /** The n-th error from `id` on, counting from zero. */
  function NthCause(causes: Causes, id: nat, n: nat): Option<nat> {
    if n == 0 then Some(id)
    else match NthCause(causes, id, n - 1)
      case Some(parent) => CauseOf(causes, parent)
      case None => None
  }

  /** Errors in the order in which causes lead from one to the next, none twice. */
  ghost predicate IsPath(chain: seq<nat>, causes: Causes, id: nat) {
    && (forall n :: 0 <= n < |chain| ==> NthCause(causes, id, n) == Some(chain[n]))
    && forall i, j :: 0 <= i < j < |chain| ==> chain[i] != chain[j]
  }

  /** The path holds every error that can be reached. */
  ghost predicate IsWhole(chain: seq<nat>, causes: Causes, id: nat) {
    forall n: nat :: NthCause(causes, id, n).Some? ==> NthCause(causes, id, n).value in chain
  }

  lemma PathInDomain(chain: seq<nat>, causes: Causes, id: nat)
    requires IsPath(chain, causes, id)
    ensures forall n :: 0 <= n < |chain| - 1 ==> chain[n] in causes
  {
    forall n | 0 <= n < |chain| - 1 ensures chain[n] in causes {
      assert NthCause(causes, id, n + 1) == Some(chain[n + 1]);
    }
  }

  lemma {:induction false} DistinctSize(list: seq<nat>, bound: set<nat>)
    requires forall i, j :: 0 <= i < j < |list| ==> list[i] != list[j]
    requires forall i :: 0 <= i < |list| ==> list[i] in bound
    ensures |list| <= |bound|
  {
    if list != [] {
      var last := list[|list| - 1];
      DistinctSize(list[..|list| - 1], bound - {last});
    }
  }

  /** A path is at most one longer than there are causes: the walk ends. */
  lemma PathIsShort(chain: seq<nat>, causes: Causes, id: nat)
    requires IsPath(chain, causes, id)
    ensures |chain| <= |causes| + 1
  {
    if chain != [] {
      PathInDomain(chain, causes, id);
      DistinctSize(chain[..|chain| - 1], causes.Keys);
    }
  }

  /** The last error has no cause, or one that is in the path. */
  predicate Stops(chain: seq<nat>, causes: Causes) {
    chain != [] &&
    match CauseOf(causes, chain[|chain| - 1])
    case Some(next) => next in chain
    case None => true
  }

  lemma CauseInPath(chain: seq<nat>, causes: Causes, id: nat, k: nat)
    requires IsPath(chain, causes, id) && Stops(chain, causes) && k < |chain|
    ensures k < |chain| - 1 ==> CauseOf(causes, chain[k]) == Some(chain[k + 1])
    ensures CauseOf(causes, chain[k]).Some? ==> CauseOf(causes, chain[k]).value in chain
  {
  }

  /** A path that stops holds every error that can be reached. */
  lemma {:induction false} Reached(chain: seq<nat>, causes: Causes, id: nat, n: nat)
    requires IsPath(chain, causes, id) && Stops(chain, causes)
    ensures NthCause(causes, id, n).Some? ==> NthCause(causes, id, n).value in chain
  {
    if n == 0 {
      assert NthCause(causes, id, 0) == Some(chain[0]);
    } else {
      Reached(chain, causes, id, n - 1);
      var parent := NthCause(causes, id, n - 1);
      if parent.Some? {
        var k: nat :| k < |chain| && chain[k] == parent.value;
        CauseInPath(chain, causes, id, k);
      }
    }
  }

  lemma WholeIfItStops(chain: seq<nat>, causes: Causes, id: nat)
    requires IsPath(chain, causes, id) && Stops(chain, causes)
    ensures IsWhole(chain, causes, id)
  {
    forall n: nat | NthCause(causes, id, n).Some? ensures NthCause(causes, id, n).value in chain {
      Reached(chain, causes, id, n);
    }
  }

  /** Where the walk goes on: at the error itself, or at the cause of the last error. */
  ghost predicate GoesOn(chain: seq<nat>, causes: Causes, id: nat, current: Reason) {
    && IsPath(chain, causes, id)
    && if chain == [] then current == ErrorObject(id)
       else chain[|chain| - 1] in causes && current == causes[chain[|chain| - 1]]
  }

  lemma PathGrows(chain: seq<nat>, causes: Causes, id: nat, current: nat)
    requires GoesOn(chain, causes, id, ErrorObject(current)) && current !in chain
    ensures IsPath(chain + [current], causes, id) && |chain| < |causes| + 1
  {
    var longer := chain + [current];
    if chain != [] {
      assert NthCause(causes, id, |chain| - 1) == Some(chain[|chain| - 1]);
    }
    forall n | 0 <= n < |longer| ensures NthCause(causes, id, n) == Some(longer[n]) {
      if n == |chain| {
        assert longer[n] == current;
      } else {
        assert longer[n] == chain[n];
      }
    }
    PathIsShort(longer, causes, id);
  }

  // ---- the walk ----------------------------------------------------------

  /** The chain holds the error and all its direct and indirect causes, each once and in order, whether or not
      the causes end; for anything that is no error it is empty. */
  method UnwrapNodeErrorChain(reason: Reason, causes: Causes) returns (chain: seq<nat>)
    ensures reason.OtherValue? ==> chain == []
    ensures reason.ErrorObject? ==> IsPath(chain, causes, reason.id) && IsWhole(chain, causes, reason.id)
    ensures reason.ErrorObject? ==> Stops(chain, causes)
  {
    chain := [];
    if reason.OtherValue? {
      return;
    }
    var current := reason;
    while true
      invariant GoesOn(chain, causes, reason.id, current)
      decreases |causes| + 1 - |chain|
    {
      if !current.ErrorObject? {
        break;
      }
      if current.id in chain {
        break;
      }
      PathGrows(chain, causes, reason.id, current.id);
      chain := chain + [current.id];
      if current.id !in causes {
        break;
      }
      current := causes[current.id];
    }
    WholeIfItStops(chain, causes, reason.id);
  }

  /** The walk stops at an error that has a cause exactly when the causes go on for ever. */
  lemma EndsOrRepeats(chain: seq<nat>, causes: Causes, id: nat)
    requires IsPath(chain, causes, id) && Stops(chain, causes)
    ensures (forall n: nat :: NthCause(causes, id, n).Some?) <==> CauseOf(causes, chain[|chain| - 1]).Some?
  {
    assert NthCause(causes, id, |chain| - 1) == Some(chain[|chain| - 1]);
    if CauseOf(causes, chain[|chain| - 1]).Some? {
      forall n: nat ensures NthCause(causes, id, n).Some? {
        NeverEnds(chain, causes, id, n);
      }
    } else {
      assert NthCause(causes, id, |chain|).None?;
    }
  }

  lemma {:induction false} NeverEnds(chain: seq<nat>, causes: Causes, id: nat, n: nat)
    requires IsPath(chain, causes, id) && Stops(chain, causes) && CauseOf(causes, chain[|chain| - 1]).Some?
    ensures NthCause(causes, id, n).Some?
  {
    if n > 0 {
      NeverEnds(chain, causes, id, n - 1);
      Reached(chain, causes, id, n - 1);
      var k: nat :| k < |chain| && chain[k] == NthCause(causes, id, n - 1).value;
      CauseInPath(chain, causes, id, k);
    }
  }

  // ---- codes -------------------------------------------------------------

  predicate HangsUp(code: string) {
    || code == "ERR_STREAM_WRITE_AFTER_END" || code == "ERR_STREAM_DESTROYED"
    || code == "ERR_HTTP2_INVALID_STREAM" || code == "ECONNRESET"
  }

  predicate CannotConnect(code: string) {
    code == "ETIMEDOUT" || code == "ENOTFOUND" || code == "EAI_AGAIN" || code == "ECONNREFUSED"
  }

  /** Some error among the causes of `reason`, itself included, has one of the codes. */
  ghost predicate SomeCause(reason: Reason, causes: Causes, codes: map<nat, string>, names: set<string>) {
    reason.ErrorObject? && exists n: nat ::
      var e := NthCause(causes, reason.id, n);
      e.Some? && e.value in codes && codes[e.value] in names
  }

  /** `chain.some(...)` */
  method AnyCode(chain: seq<nat>, codes: map<nat, string>, kind: string -> bool) returns (found: bool)
    ensures found <==> exists i :: 0 <= i < |chain| && chain[i] in codes && kind(codes[chain[i]])
  {
    for i := 0 to |chain|
      invariant forall j :: 0 <= j < i ==> !(chain[j] in codes && kind(codes[chain[j]]))
    {
      if chain[i] in codes && kind(codes[chain[i]]) {
        return true;
      }
    }
    return false;
  }

  /** What else is known of an error: a ConnectError has a code of its own, and an AbortError is told by its name. */
  datatype Kind = HasCode(code: Int32) | IsAbort | IsOther

  /** The code of ConnectError.from: a ConnectError is returned as it is. */
  function CodeOf(reason: Reason, kinds: map<nat, Kind>, fallback: Int32): Int32 {
    if reason.ErrorObject? && reason.id in kinds && kinds[reason.id].HasCode? then kinds[reason.id].code
    else if reason.ErrorObject? && reason.id in kinds && kinds[reason.id].IsAbort? then CANCELED
    else fallback
  }

  /** Neither a ConnectError nor an AbortError. */
  predicate IsOrdinary(reason: Reason, kinds: map<nat, Kind>) {
    reason.OtherValue? || reason.id !in kinds || kinds[reason.id].IsOther?
  }

  /** The code for an error of Node.js: a ConnectError keeps its code, an AbortError is Canceled (1), and with others,
      whatever the depth at which it is buried, a stream that was hung up counts (Aborted, 10) more than a connection
      that could not be made (Unavailable, 14), and that more than anything else (Internal, 13). */
  method CodeFromNodeReason(reason: Reason, causes: Causes, codes: map<nat, string>, kinds: map<nat, Kind>)
    returns (code: Int32)
    ensures reason.ErrorObject? && reason.id in kinds && kinds[reason.id].HasCode? ==> code == kinds[reason.id].code
    ensures reason.ErrorObject? && reason.id in kinds && kinds[reason.id].IsAbort? ==> code == 1
    ensures IsOrdinary(reason, kinds) ==>
      code == if SomeCause(reason, causes, codes, {"ERR_STREAM_WRITE_AFTER_END", "ERR_STREAM_DESTROYED",
                                                   "ERR_HTTP2_INVALID_STREAM", "ECONNRESET"}) then 10
              else if SomeCause(reason, causes, codes, {"ETIMEDOUT", "ENOTFOUND", "EAI_AGAIN", "ECONNREFUSED"}) then 14
              else 13
  {
    var chain := UnwrapNodeErrorChain(reason, causes);
    var hangsUp := AnyCode(chain, codes, HangsUp);
    var cannotConnect := AnyCode(chain, codes, CannotConnect);
    code := CodeOf(reason, kinds, if hangsUp then ABORTED else if cannotConnect then UNAVAILABLE else INTERNAL);
  }

}
