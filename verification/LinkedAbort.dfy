/** createLinkedAbortController: a controller that is aborted with the first of several signals
    (abort signals and event dispatch as in section 3.2 of the DOM Standard). */
module LinkedAbort {
  import opened Base

  /** The reason of an aborted signal; signals of older runtimes have none. */
  datatype Reason = Given(id: nat) | Missing | AbortError

  /** Signals are numbered; this is the one of the new controller. */
  const CONTROLLER: nat := 0

  /** Which signals are aborted and why, where the listener onAbort is registered, the aborted signals whose event
      has not reached onAbort yet, and the causes for an abort of the controller, in the order in which they came:
      the reasons as the signals, or the caller of abort(), had them. */
  datatype Link = Link(aborted: map<nat, Reason>, listening: set<nat>, undelivered: set<nat>, causes: seq<Reason>, abortCalled: bool)

  /** getAbortSignalReason, of an aborted signal. */
  function ReasonOf(reason: Reason): Reason {
    if reason.Missing? then AbortError else reason
  }

  function SetOf(list: seq<nat>): set<nat> {
    set i | i in list
  }

  /** onAbort, called for signal `i`: aborting the controller dispatches its own event, which reaches onAbort
      again, and finds the controller aborted; in the end no listener is left. */
  function OnAbort(l: Link, sa: seq<nat>, i: nat): Link
    requires i in l.aborted
  {
    var l' := if CONTROLLER in l.aborted then l
              else l.(aborted := l.aborted[CONTROLLER := ReasonOf(l.aborted[i])]);
    l'.(listening := l'.listening - SetOf(sa))
  }

  /** The controller right after its creation, when some of the signals may already be aborted. */
  function Create(sources: seq<nat>, aborted: map<nat, Reason>): Link {
    var sa := sources + [CONTROLLER];
    match FirstAborted(sources, aborted)
    case None => Link(aborted, SetOf(sa), {}, [], false)
    case Some(i) => Link(aborted[CONTROLLER := ReasonOf(aborted[i])], {}, {}, [aborted[i]], false)
  }

  function FirstAborted(sources: seq<nat>, aborted: map<nat, Reason>): (r: Option<nat>)
    ensures r.Some? ==> r.value in sources && r.value in aborted
    ensures r.None? ==> forall i :: i in sources ==> i !in aborted
  {
    if sources == [] then None
    else if sources[0] in aborted then Some(sources[0])
    else FirstAborted(sources[1..], aborted)
  }

  // ---- events ------------------------------------------------------------

  /** A source is aborted, or abort() is called; and the event of an aborted signal reaches onAbort. Between the
      two, other listeners run, and may abort further signals. */
  datatype Event = SourceAborts(source: nat, reason: Reason) | AbortCalled(reason: Reason) | Deliver(signal: nat)

  predicate Enabled(l: Link, sources: seq<nat>, e: Event) {
    match e
    case SourceAborts(i, _) => i in sources
    case AbortCalled(reason) => !reason.Missing?
    case Deliver(i) => i in l.undelivered && i in l.aborted
  }

  function Step(l: Link, sources: seq<nat>, e: Event): Link
    requires Enabled(l, sources, e)
  {
    match e
    case SourceAborts(i, reason) =>
      if i in l.aborted then l else l.(aborted := l.aborted[i := reason], undelivered := l.undelivered + {i})
    case AbortCalled(reason) =>
      var l' := l.(abortCalled := true);
      if CONTROLLER in l.aborted then l'
      else l'.(aborted := l.aborted[CONTROLLER := reason], undelivered := l.undelivered + {CONTROLLER}, causes := l.causes + [reason])
    case Deliver(i) =>
      var l' := l.(undelivered := l.undelivered - {i});
      if i !in l.listening then l'
      else OnAbort(l'.(causes := if i == CONTROLLER then l.causes else l.causes + [l.aborted[i]]),
                   sources + [CONTROLLER], i)
  }

  predicate Legal(l: Link, sources: seq<nat>, events: seq<Event>)
    decreases |events|
  {
    events == [] || (Enabled(l, sources, events[0]) && Legal(Step(l, sources, events[0]), sources, events[1..]))
  }

  function Run(l: Link, sources: seq<nat>, events: seq<Event>): Link
    requires Legal(l, sources, events)
    decreases |events|
  {
    if events == [] then l else Run(Step(l, sources, events[0]), sources, events[1..])
  }

  // ---- properties --------------------------------------------------------

  /** The controller's reason is the very one it was aborted with; only a missing one is replaced. */
  predicate TakenFrom(reason: Reason, cause: Reason) {
    if cause.Missing? then reason.AbortError? else reason == cause
  }

  ghost predicate Inv(l: Link, sources: seq<nat>) {
    && (CONTROLLER !in l.aborted ==>
          && l.listening == SetOf(sources + [CONTROLLER]) && l.causes == [] && !l.abortCalled
          && forall i :: i in sources && i in l.aborted ==> i in l.undelivered)
    && (CONTROLLER in l.aborted ==>
          && l.causes != [] && TakenFrom(l.aborted[CONTROLLER], l.causes[0])
          && (l.listening == {} || (l.listening == SetOf(sources + [CONTROLLER]) && CONTROLLER in l.undelivered))
          && (l.abortCalled || exists i :: i in sources && i in l.aborted))
  }

  lemma CreateKeeps(sources: seq<nat>, aborted: map<nat, Reason>)
    requires CONTROLLER !in aborted
    ensures Inv(Create(sources, aborted), sources)
  {
  }

  lemma StepKeeps(l: Link, sources: seq<nat>, e: Event)
    requires Inv(l, sources) && Enabled(l, sources, e) && CONTROLLER !in sources
    ensures Inv(Step(l, sources, e), sources)
  {
  }

  lemma {:induction false} RunKeeps(l: Link, sources: seq<nat>, events: seq<Event>)
    requires Inv(l, sources) && Legal(l, sources, events) && CONTROLLER !in sources
    ensures Inv(Run(l, sources, events), sources)
    decreases |events|
  {
    if events != [] {
      StepKeeps(l, sources, events[0]);
      RunKeeps(Step(l, sources, events[0]), sources, events[1..]);
    }
  }

  /** In every run, over sources that may repeat and may be aborted from the start: whenever no event is on its way,
      the controller is aborted if and only if some source is aborted or abort() was called; its reason is the
      one the first cause had, and an AbortError if that had none; and none of its listeners is left. */
  lemma LinkedAbortCorrect(sources: seq<nat>, aborted: map<nat, Reason>, events: seq<Event>)
    requires CONTROLLER !in aborted && CONTROLLER !in sources && Legal(Create(sources, aborted), sources, events)
    ensures
      var l := Run(Create(sources, aborted), sources, events);
      && (l.undelivered == {} ==> (CONTROLLER in l.aborted <==> l.abortCalled || exists i :: i in sources && i in l.aborted))
      && (CONTROLLER in l.aborted ==> l.causes != [] && TakenFrom(l.aborted[CONTROLLER], l.causes[0]))
      && (CONTROLLER in l.aborted && l.undelivered == {} ==> l.listening == {})
  {
    CreateKeeps(sources, aborted);
    RunKeeps(Create(sources, aborted), sources, events);
  }

  /** The first source in the list counts when several are aborted from the start, and nothing is registered. */
  lemma AlreadyAborted(sources: seq<nat>, aborted: map<nat, Reason>, k: nat)
    requires k < |sources| && sources[k] in aborted && forall j :: 0 <= j < k ==> sources[j] !in aborted
    ensures
      var l := Create(sources, aborted);
      CONTROLLER in l.aborted && TakenFrom(l.aborted[CONTROLLER], aborted[sources[k]]) && l.listening == {}
  {
    FirstAbortedIs(sources, aborted, k);
  }

  lemma {:induction false} FirstAbortedIs(sources: seq<nat>, aborted: map<nat, Reason>, k: nat)
    requires k < |sources| && sources[k] in aborted && forall j :: 0 <= j < k ==> sources[j] !in aborted
    ensures FirstAborted(sources, aborted) == Some(sources[k])
  {
    if k > 0 {
      FirstAbortedIs(sources[1..], aborted, k - 1);
    }
  }

  // ---- the controller ----------------------------------------------------

  class LinkedAbortController {
    const sa: seq<nat>
    var aborted: map<nat, Reason>
    var listening: set<nat>

    constructor (sources: seq<nat>, aborted: map<nat, Reason>)
      requires CONTROLLER !in aborted
      ensures sa == sources + [CONTROLLER]
      ensures this.aborted == Create(sources, aborted).aborted && listening == Create(sources, aborted).listening
    {
      sa := sources + [CONTROLLER];
      this.aborted := aborted;
      listening := {};
      new;
      var n := 0;
      while n < |sa|
        invariant n <= |sa| && this.aborted == aborted
        invariant listening == SetOf(sa[..n]) && forall i :: i in sa[..n] ==> i !in aborted
      {
        var signal := sa[n];
        if signal in aborted {
          assert n < |sources| && sources[n] == signal;
          forall j | 0 <= j < n ensures sources[j] !in aborted {
            assert sa[..n][j] == sources[j];
          }
          FirstAbortedIs(sources, aborted, n);
          assert forall i :: i in sa[..n] ==> i in sa;
          HandleAbort(signal);
          return;
        }
        listening := listening + {signal};
        assert sa[..n + 1] == sa[..n] + [signal];
        n := n + 1;
      }
      assert sa[..n] == sa;
      assert forall i :: i in sources ==> i in sa;
    }

    /** onAbort. Aborting the controller calls it a second time, for the controller's own signal. */
    method HandleAbort(signal: nat)
      requires signal in aborted
      modifies this`aborted, this`listening
      ensures aborted == if CONTROLLER in old(aborted) then old(aborted)
                         else old(aborted)[CONTROLLER := ReasonOf(old(aborted)[signal])]
      ensures listening == old(listening) - SetOf(sa)
      decreases CONTROLLER !in aborted
    {
      if CONTROLLER !in aborted {
        aborted := aborted[CONTROLLER := ReasonOf(aborted[signal])];
        if CONTROLLER in listening {
          HandleAbort(CONTROLLER);
        }
      }
      for n := 0 to |sa|
        invariant listening <= old(listening) && old(listening) - SetOf(sa) <= listening
        invariant forall i :: i in sa[..n] ==> i !in listening
        invariant aborted == if CONTROLLER in old(aborted) then old(aborted)
                             else old(aborted)[CONTROLLER := ReasonOf(old(aborted)[signal])]
      {
        assert sa[..n + 1] == sa[..n] + [sa[n]];
        listening := listening - {sa[n]};
      }
      assert sa[..|sa|] == sa;
    }
  }
}
