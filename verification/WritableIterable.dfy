/** createWritableIterable: a queue that hands values written on one side to answers on the other. A
    write is acknowledged by awaiting generation after generation of a promise that next() resolves. */
module WritableIterable {
  import opened Base

  datatype PromiseState = Pending | Resolved | Rejected

  /** A call of write() that was accepted: suspended on a generation with so many awaits left, or settled. */
  datatype Writer = Waiting(generation: nat, left: nat) | Fulfilled | Failed

  /** The promise that a call of next() returned. */
  datatype Read<+T> = Unanswered | Value(payload: Option<T>) | Finished

  /** The queue, the promises and suspended calls that the runtime holds, and what happened so far. A
      payload is None when it is the value undefined. */
  datatype State<+T> = State(
    readQueue: seq<nat>, writeQueue: seq<Option<T>>, closed: bool,
    promises: seq<PromiseState>, nextPromise: nat, resolver: nat,
    writers: seq<Writer>, answers: seq<Read<T>>,
    accepted: seq<Option<T>>, delivered: seq<Option<T>>, stopped: bool)

  /** What the two sides can do, and the runtime: Resume continues a write whose awaited promise is settled. */
  datatype Event<+T> = Write(payload: Option<T>) | Close | Next | Throw | Return | Resume(writer: nat)

  function Initial<T>(): State<T> {
    State([], [], false, [Pending], 0, 0, [], [], [], [], false)
  }

  // ---- one step ----------------------------------------------------------

  /** A promise is settled once; later attempts do nothing. */
  function Settle(promises: seq<PromiseState>, i: nat, outcome: PromiseState): (r: seq<PromiseState>)
    ensures |r| == |promises|
  {
    if i < |promises| && promises[i].Pending? then promises[i := outcome] else promises
  }

  function Drained<T>(answers: seq<Read<T>>, queue: seq<nat>): (r: seq<Read<T>>)
    ensures |r| == |answers|
    ensures forall i :: 0 <= i < |r| ==> r[i] == if i in queue then Finished else answers[i]
  {
    seq(|answers|, i requires 0 <= i < |answers| => if i in queue then Finished else answers[i])
  }

  function Answer<T>(answers: seq<Read<T>>, i: nat, answer: Read<T>): (r: seq<Read<T>>)
    ensures |r| == |answers|
  {
    if i < |answers| then answers[i := answer] else answers
  }

  function Suspend<T>(s: State<T>): State<T> {
    s.(writers := s.writers + [Waiting(s.nextPromise, |s.writeQueue| + 1)])
  }

  function WriteStep<T>(s: State<T>, payload: Option<T>): State<T> {
    if s.closed then s
    else if s.readQueue == [] then
      Suspend(s.(accepted := s.accepted + [payload], writeQueue := s.writeQueue + [payload]))
    else
      var s' := s.(accepted := s.accepted + [payload], delivered := s.delivered + [payload],
                   answers := Answer(s.answers, s.readQueue[0], Value(payload)), readQueue := s.readQueue[1..]);
      if s'.readQueue != [] then s'.(writers := s'.writers + [Fulfilled]) else Suspend(s')
  }

  function CloseStep<T>(s: State<T>): State<T> {
    s.(closed := true, answers := Drained(s.answers, s.readQueue), readQueue := [])
  }

  /** nextResolve(), and a new generation. */
  function NewGeneration<T>(s: State<T>): State<T> {
    s.(promises := Settle(s.promises, s.resolver, Resolved) + [Pending], nextPromise := |s.promises|, resolver := |s.promises|)
  }

  /** A shifted payload that is undefined looks like an empty queue. */
  function NextStep<T>(s: State<T>): State<T> {
    var t := NewGeneration(s);
    var write := if t.writeQueue == [] then None else t.writeQueue[0];
    var u := if t.writeQueue == [] then t else t.(writeQueue := t.writeQueue[1..]);
    if write.Some? then u.(answers := u.answers + [Value(write)], delivered := u.delivered + [write])
    else if u.closed then u.(answers := u.answers + [Finished])
    else u.(answers := u.answers + [Unanswered], readQueue := u.readQueue + [|u.answers|])
  }

  function ThrowStep<T>(s: State<T>): State<T> {
    CloseStep(s.(writeQueue := [], promises := Settle(s.promises, s.resolver, Rejected), stopped := true))
  }

  function ReturnStep<T>(s: State<T>): State<T> {
    CloseStep(s.(writeQueue := [], promises := Settle(s.promises, s.resolver, Resolved) + [Rejected],
                 nextPromise := |s.promises|, stopped := true))
  }

  predicate CanResume<T>(s: State<T>, w: nat) {
    w < |s.writers| && s.writers[w].Waiting? && s.writers[w].generation < |s.promises|
    && !s.promises[s.writers[w].generation].Pending?
  }

  function ResumeStep<T>(s: State<T>, w: nat): State<T>
    requires CanResume(s, w)
  {
    var Waiting(generation, left) := s.writers[w];
    s.(writers := s.writers[w :=
      if s.promises[generation].Rejected? then Failed
      else if left <= 1 then Fulfilled
      else Waiting(s.nextPromise, left - 1)])
  }

  predicate Enabled<T>(s: State<T>, e: Event<T>) {
    e.Resume? ==> CanResume(s, e.writer)
  }

  function Step<T>(s: State<T>, e: Event<T>): State<T>
    requires Enabled(s, e)
  {
    match e
    case Write(payload) => WriteStep(s, payload)
    case Close => CloseStep(s)
    case Next => NextStep(s)
    case Throw => ThrowStep(s)
    case Return => ReturnStep(s)
    case Resume(w) => ResumeStep(s, w)
  }

  // ---- runs --------------------------------------------------------------

  predicate Legal<T>(s: State<T>, events: seq<Event<T>>)
    decreases |events|
  {
    events == [] || (Enabled(s, events[0]) && Legal(Step(s, events[0]), events[1..]))
  }

  function Run<T>(s: State<T>, events: seq<Event<T>>): State<T>
    requires Legal(s, events)
    decreases |events|
  {
    if events == [] then s else Run(Step(s, events[0]), events[1..])
  }

  lemma RunCons<T>(s: State<T>, e: Event<T>, rest: seq<Event<T>>)
    requires Enabled(s, e) && Legal(Step(s, e), rest)
    ensures Legal(s, [e] + rest) && Run(s, [e] + rest) == Run(Step(s, e), rest)
  {
    assert ([e] + rest)[1..] == rest;
  }

  /** Only payloads from `allowed` are written. */
  predicate WritesOnly<T>(events: seq<Event<T>>, allowed: Option<T> -> bool) {
    forall i :: 0 <= i < |events| && events[i].Write? ==> allowed(events[i].payload)
  }

  function Present<T>(): Option<T> -> bool {
    (p: Option<T>) => p.Some?
  }

  /** The consumer calls no next() once it has called throw() or return(). */
  predicate NoNextAfterStop<T>(stopped: bool, events: seq<Event<T>>)
    decreases |events|
  {
    events == [] ||
    ((stopped ==> !events[0].Next?) && NoNextAfterStop(stopped || events[0].Throw? || events[0].Return?, events[1..]))
  }

  // ---- the channel -------------------------------------------------------

  /** Without a close, the reads that are not answered yet are queued in order. */
  ghost predicate Queued<T>(s: State<T>) {
    && |s.readQueue| == |s.answers| - |s.delivered|
    && forall k :: 0 <= k < |s.readQueue| ==> s.readQueue[k] == |s.delivered| + k
  }

  /** The queue is a first-in first-out channel: read k is answered with write k, is still waiting, or is told
      that there are no more; and what was written but not read is in the write queue. */
  ghost predicate Channel<T>(s: State<T>) {
    && |s.delivered| <= |s.accepted| && |s.delivered| <= |s.answers|
    && (forall k :: 0 <= k < |s.accepted| ==> s.accepted[k].Some?)
    && (forall k :: 0 <= k < |s.delivered| ==> s.delivered[k] == s.accepted[k] && s.answers[k] == Value(s.accepted[k]))
    && (forall k :: |s.delivered| <= k < |s.answers| ==> s.answers[k] == if s.closed then Finished else Unanswered)
    && s.writeQueue == (if s.stopped then [] else s.accepted[|s.delivered|..])
    && (s.stopped ==> s.closed)
    && (s.closed ==> s.readQueue == [])
    && (!s.closed ==> Queued(s))
    && (|s.answers| > |s.delivered| ==> s.writeQueue == [])
  }

  lemma WriteKeepsChannel<T>(s: State<T>, payload: Option<T>)
    requires Channel(s) && payload.Some?
    ensures Channel(WriteStep(s, payload))
  {
  }

  lemma CloseKeepsChannel<T>(s: State<T>)
    requires Channel(s)
    ensures Channel(CloseStep(s))
  {
    forall k | |s.delivered| <= k < |s.answers| ensures CloseStep(s).answers[k] == Finished {
      if !s.closed {
        assert s.readQueue[k - |s.delivered|] == k;
      }
    }
  }

  lemma NextKeepsChannel<T>(s: State<T>)
    requires Channel(s)
    ensures Channel(NextStep(s))
  {
  }

  lemma StopKeepsChannel<T>(s: State<T>)
    requires Channel(s)
    ensures Channel(ThrowStep(s)) && Channel(ReturnStep(s))
  {
    forall k | |s.delivered| <= k < |s.answers|
      ensures ThrowStep(s).answers[k] == Finished && ReturnStep(s).answers[k] == Finished
    {
      if !s.closed {
        assert s.readQueue[k - |s.delivered|] == k;
      }
    }
  }

  lemma ChannelStep<T>(s: State<T>, e: Event<T>)
    requires Channel(s) && Enabled(s, e) && (e.Write? ==> e.payload.Some?)
    ensures Channel(Step(s, e))
  {
    match e
    case Write(payload) => WriteKeepsChannel(s, payload);
    case Close => CloseKeepsChannel(s);
    case Next => NextKeepsChannel(s);
    case Throw => StopKeepsChannel(s);
    case Return => StopKeepsChannel(s);
    case Resume(_) =>
  }

  /** In every run that writes no undefined, after every event, the queue is a channel. */
  lemma {:induction false} ChannelRun<T>(s: State<T>, events: seq<Event<T>>)
    requires Channel(s) && Legal(s, events) && WritesOnly(events, Present<T>())
    ensures Channel(Run(s, events))
    decreases |events|
  {
    if events != [] {
      ChannelStep(s, events[0]);
      ChannelRun(Step(s, events[0]), events[1..]);
    }
  }

  /** What the channel means for the reads: never a read and a write queued at once, no read pending after a close,
      answers in the order of the writes, and, short of a throw or return, no read told "done" before every
      accepted write was delivered. */
  lemma ChannelMeaning<T>(events: seq<Event<T>>)
    requires Legal(Initial<T>(), events) && WritesOnly(events, Present<T>())
    ensures
      var s := Run(Initial(), events);
      && (s.readQueue == [] || s.writeQueue == [])
      && (s.closed ==> s.readQueue == [] && forall k :: 0 <= k < |s.answers| ==> s.answers[k] != Unanswered)
      && s.delivered <= s.accepted
      && (!s.stopped ==> s.delivered + s.writeQueue == s.accepted)
      && (forall k :: 0 <= k < |s.answers| && s.answers[k].Value? ==> k < |s.accepted| && s.answers[k].payload == s.accepted[k])
      && (!s.stopped && Finished in s.answers ==> s.delivered == s.accepted)
  {
    ChannelRun(Initial(), events);
    var s := Run(Initial(), events);
    assert s.delivered == s.accepted[..|s.delivered|];
    if !s.stopped {
      assert s.accepted[..|s.delivered|] + s.accepted[|s.delivered|..] == s.accepted;
    }
  }

  // ---- what a history decides --------------------------------------------

  predicate IsStop<T>(e: Event<T>) {
    e.Throw? || e.Return?
  }

  predicate Closes<T>(events: seq<Event<T>>) {
    exists i :: 0 <= i < |events| && (events[i].Close? || IsStop(events[i]))
  }

  /** The payloads written before the first close(), throw() or return(). */
  function Written<T>(events: seq<Event<T>>): seq<Option<T>> {
    if events == [] || events[0].Close? || IsStop(events[0]) then []
    else (if events[0].Write? then [events[0].payload] else []) + Written(events[1..])
  }

  /** The number of calls of next(), and of those before the first throw() or return(). */
  function Reads<T>(events: seq<Event<T>>): nat {
    if events == [] then 0 else (if events[0].Next? then 1 else 0) + Reads(events[1..])
  }

  function LiveReads<T>(events: seq<Event<T>>): nat {
    if events == [] || IsStop(events[0]) then 0 else (if events[0].Next? then 1 else 0) + LiveReads(events[1..])
  }

  function Least(a: nat, b: nat): nat { if a <= b then a else b }

  /** After a stop nothing is delivered any more. */
  lemma {:induction false} NothingAfterStop<T>(s: State<T>, events: seq<Event<T>>)
    requires Channel(s) && s.stopped && Legal(s, events) && WritesOnly(events, Present<T>())
    ensures Run(s, events).delivered == s.delivered
    decreases |events|
  {
    if events != [] {
      ChannelStep(s, events[0]);
      NothingAfterStop(Step(s, events[0]), events[1..]);
    }
  }

  lemma {:induction false} ClosesFirst<T>(events: seq<Event<T>>)
    requires events != []
    ensures Closes(events) <==> events[0].Close? || IsStop(events[0]) || Closes(events[1..])
  {
    if Closes(events[1..]) {
      var i :| 0 <= i < |events[1..]| && (events[1..][i].Close? || IsStop(events[1..][i]));
      assert events[i + 1] == events[1..][i];
    }
    if Closes(events) {
      var i :| 0 <= i < |events| && (events[i].Close? || IsStop(events[i]));
      assert i > 0 ==> events[1..][i - 1] == events[i];
    }
  }

  /** The queues after some events, from any channel that was not stopped. */
  ghost predicate Follows<T>(s: State<T>, events: seq<Event<T>>, t: State<T>) {
    var accepted := s.accepted + if s.closed then [] else Written(events);
    && (t.closed <==> s.closed || Closes(events))
    && t.accepted == accepted
    && |t.answers| == |s.answers| + Reads(events)
    && |t.delivered| == Least(|s.answers| + LiveReads(events), |accepted|)
  }

  /** What one event adds. */
  ghost predicate Adds<T>(s: State<T>, e: Event<T>, t: State<T>) {
    && t.closed == (s.closed || e.Close? || IsStop(e)) && (t.stopped <==> IsStop(e))
    && t.accepted == s.accepted + (if !s.closed && e.Write? then [e.payload] else [])
    && |t.answers| == |s.answers| + (if e.Next? then 1 else 0)
    && (IsStop(e) ==> |t.delivered| == Least(|s.answers|, |s.accepted|))
  }

  lemma FollowsStep<T>(s: State<T>, e: Event<T>)
    requires Channel(s) && !s.stopped && Enabled(s, e) && (e.Write? ==> e.payload.Some?)
    ensures Adds(s, e, Step(s, e))
  {
  }

  lemma {:induction false} AcceptedFirst<T>(accepted: seq<Option<T>>, closed: bool, events: seq<Event<T>>)
    requires events != [] && !IsStop(events[0])
    ensures accepted + (if closed then [] else Written(events))
         == accepted + (if !closed && events[0].Write? then [events[0].payload] else [])
            + (if closed || events[0].Close? then [] else Written(events[1..]))
  {
    if !closed && events[0].Write? {
      ConcatAssociates(accepted, [events[0].payload], Written(events[1..]));
    } else {
      assert accepted + [] == accepted && [] + Written(events[1..]) == Written(events[1..]);
    }
  }

  lemma {:induction false} FollowsCons<T>(s: State<T>, events: seq<Event<T>>, s1: State<T>, t: State<T>)
    requires events != [] && !IsStop(events[0]) && Adds(s, events[0], s1) && Follows(s1, events[1..], t)
    ensures Follows(s, events, t)
  {
    ClosesFirst(events);
    AcceptedFirst(s.accepted, s.closed, events);
    assert t.accepted == s.accepted + if s.closed then [] else Written(events);
    assert Reads(events) == (if events[0].Next? then 1 else 0) + Reads(events[1..]);
    assert LiveReads(events) == (if events[0].Next? then 1 else 0) + LiveReads(events[1..]);
  }

  lemma {:induction false} RunFollows<T>(s: State<T>, events: seq<Event<T>>)
    requires Channel(s) && !s.stopped && Legal(s, events) && WritesOnly(events, Present<T>())
    ensures Follows(s, events, Run(s, events))
    decreases |events|
  {
    if events == [] {
      assert !Closes(events) && s.accepted + [] == s.accepted;
    } else {
      var t := Step(s, events[0]);
      ChannelStep(s, events[0]);
      FollowsStep(s, events[0]);
      if IsStop(events[0]) {
        ClosesFirst(events);
        StoppedFollows(t, events[1..]);
        NothingAfterStop(t, events[1..]);
      } else {
        RunFollows(t, events[1..]);
        FollowsCons(s, events, t, Run(s, events));
      }
    }
  }

  lemma {:induction false} StoppedFollows<T>(s: State<T>, events: seq<Event<T>>)
    requires Channel(s) && s.stopped && Legal(s, events) && WritesOnly(events, Present<T>())
    ensures
      var t := Run(s, events);
      t.closed && t.accepted == s.accepted && |t.answers| == |s.answers| + Reads(events)
    decreases |events|
  {
    if events != [] {
      ChannelStep(s, events[0]);
      StoppedFollows(Step(s, events[0]), events[1..]);
    }
  }

  /** How reads and writes interleave makes no difference: every read is answered with the write of the same number,
      if both were made before a stop, and the write before a close; all others are told "done" once the queue is closed,
      and wait until then. */
  lemma HistoryDecides<T>(events: seq<Event<T>>, k: nat)
    requires Legal(Initial<T>(), events) && WritesOnly(events, Present<T>()) && k < Reads(events)
    ensures
      var s := Run(Initial<T>(), events);
      && |s.answers| == Reads(events)
      && s.answers[k] == if k < LiveReads(events) && k < |Written(events)| then Value(Written(events)[k])
                         else if Closes(events) then Finished else Unanswered
  {
    ChannelRun(Initial(), events);
    RunFollows(Initial(), events);
    assert [] + Written(events) == Written(events);
  }

  // ---- every read resolves at most once ----------------------------------

  /** The reads in the queue are different ones, and none of them is answered yet. */
  ghost predicate ReadsPending<T>(s: State<T>) {
    && (forall k :: 0 <= k < |s.readQueue| ==>
          s.readQueue[k] < |s.answers| && s.answers[s.readQueue[k]] == Unanswered)
    && forall i, k :: 0 <= i < k < |s.readQueue| ==> s.readQueue[i] != s.readQueue[k]
  }

  ghost predicate KeepsAnswers<T>(s: State<T>, t: State<T>) {
    |s.answers| <= |t.answers|
    && forall k :: 0 <= k < |s.answers| && s.answers[k] != Unanswered ==> t.answers[k] == s.answers[k]
  }

  lemma AnswersWrite<T>(s: State<T>, payload: Option<T>)
    requires ReadsPending(s)
    ensures ReadsPending(WriteStep(s, payload)) && KeepsAnswers(s, WriteStep(s, payload))
  {
  }

  lemma AnswersNext<T>(s: State<T>)
    requires ReadsPending(s)
    ensures ReadsPending(NextStep(s)) && KeepsAnswers(s, NextStep(s))
  {
  }

  lemma AnswersStep<T>(s: State<T>, e: Event<T>)
    requires ReadsPending(s) && Enabled(s, e)
    ensures ReadsPending(Step(s, e)) && KeepsAnswers(s, Step(s, e))
  {
    match e
    case Write(payload) => AnswersWrite(s, payload);
    case Next => AnswersNext(s);
    case Close =>
    case Throw =>
    case Return =>
    case Resume(_) =>
  }

  lemma {:induction false} AnswersRun<T>(s: State<T>, events: seq<Event<T>>)
    requires ReadsPending(s) && Legal(s, events)
    ensures ReadsPending(Run(s, events)) && KeepsAnswers(s, Run(s, events))
    decreases |events|
  {
    if events != [] {
      AnswersStep(s, events[0]);
      AnswersRun(Step(s, events[0]), events[1..]);
    }
  }

  lemma {:induction false} LegalAppend<T>(s: State<T>, a: seq<Event<T>>, b: seq<Event<T>>)
    requires Legal(s, a + b)
    ensures Legal(s, a) && Legal(Run(s, a), b) && Run(s, a + b) == Run(Run(s, a), b)
    decreases |a|
  {
    if a == [] {
      assert a + b == b;
    } else {
      assert (a + b)[0] == a[0] && (a + b)[1..] == a[1..] + b;
      LegalAppend(Step(s, a[0]), a[1..], b);
    }
  }

  /** Every read resolves at most once: in every run, whatever is written, an answer that was given after some of
      the events is the answer in the end. */
  lemma ResolvesOnce<T>(before: seq<Event<T>>, after: seq<Event<T>>, k: nat)
    requires Legal(Initial<T>(), before + after)
    ensures Legal(Initial<T>(), before)
    ensures
      var s, t := Run(Initial<T>(), before), Run(Initial<T>(), before + after);
      k < |s.answers| && s.answers[k] != Unanswered ==> k < |t.answers| && t.answers[k] == s.answers[k]
  {
    LegalAppend(Initial<T>(), before, after);
    AnswersRun(Initial<T>(), before);
    AnswersRun(Run(Initial<T>(), before), after);
  }

  // ---- the payload undefined ---------------------------------------------

  /** The payload undefined is what breaks the queue: a read and a write are never queued at once in any run if
      and only if undefined is never written. */
  lemma NeverBothQueued<T>(allowed: Option<T> -> bool)
    ensures
      (forall events :: Legal(Initial<T>(), events) && WritesOnly(events, allowed)
        ==> Run(Initial<T>(), events).readQueue == [] || Run(Initial<T>(), events).writeQueue == [])
      <==> !allowed(None)
  {
    if allowed(None) {
      var w: Event<T> := Write(None);
      var events: seq<Event<T>> := [w, w, Next];
      var s0 := Initial<T>();
      var s1 := Step(s0, w);
      var s2 := Step(s1, w);
      var s3 := Step(s2, Next);
      RunCons(s2, Next, []);
      RunCons(s1, w, [Next]);
      RunCons(s0, w, [w, Next]);
      assert [w] + [w, Next] == events;
      assert s3.readQueue == [0] && s3.writeQueue == [None];
      assert WritesOnly(events, allowed);
    } else {
      forall events | Legal(Initial<T>(), events) && WritesOnly(events, allowed)
        ensures Run(Initial<T>(), events).readQueue == [] || Run(Initial<T>(), events).writeQueue == []
      {
        assert WritesOnly(events, Present<T>());
        ChannelMeaning(events);
      }
    }
  }

  // ---- acknowledgement ---------------------------------------------------

  /** How many generations must still be resolved before a suspended write can go through. */
  function Awaits<T>(s: State<T>, w: Writer): int
    requires w.Waiting? && w.generation < |s.promises|
  {
    w.left - 1 + if s.promises[w.generation].Pending? then 1 else 0
  }

  /** The generations: all but the current one are resolved, until throw() or return() leaves a rejected one behind. */
  ghost predicate Generations<T>(s: State<T>) {
    && s.nextPromise < |s.promises| && s.resolver < |s.promises|
    && (!s.stopped ==> s.nextPromise == s.resolver == |s.promises| - 1 && s.promises[s.nextPromise] == Pending)
    && (!s.stopped ==> forall g :: 0 <= g < s.nextPromise ==> s.promises[g] == Resolved)
    && (s.stopped ==> s.promises[s.nextPromise] == Rejected && Pending !in s.promises)
    && |s.writers| == |s.accepted|
  }

  /** A suspended write needs one more resolved generation than there are deliveries up to its own. After
      throw() or return(), a write that was not delivered runs into the rejected generation. */
  ghost predicate Covered<T>(s: State<T>, i: nat)
    requires i < |s.writers|
  {
    match s.writers[i]
    case Fulfilled => i < |s.delivered|
    case Failed => true
    case Waiting(generation, left) =>
      && generation < |s.promises| && left >= 1
      && (i < |s.delivered| ||
          (if s.stopped then s.promises[generation] == Rejected || left >= 2
           else s.promises[generation] != Rejected && |s.delivered| + Awaits(s, s.writers[i]) >= i + 2))
  }

  ghost predicate Acknowledged<T>(s: State<T>) {
    Channel(s) && Generations(s) && forall i :: 0 <= i < |s.writers| ==> Covered(s, i)
  }

  /** Covering is kept by whatever changes neither promises nor the writer, and takes no delivery back. */
  lemma CoveredStays<T>(s: State<T>, t: State<T>, i: nat)
    requires i < |s.writers| && i < |t.writers| && t.writers[i] == s.writers[i] && Covered(s, i)
    requires t.promises == s.promises && t.stopped == s.stopped && |t.delivered| >= |s.delivered|
    ensures Covered(t, i)
  {
  }

  lemma WriteKeepsGenerations<T>(s: State<T>, payload: Option<T>)
    requires Generations(s)
    ensures Generations(WriteStep(s, payload))
  {
  }

  lemma WriteKeepsCovered<T>(s: State<T>, payload: Option<T>, i: nat)
    requires Acknowledged(s) && !s.closed && payload.Some? && i < |WriteStep(s, payload).writers|
    ensures Covered(WriteStep(s, payload), i)
  {
    if i < |s.writers| {
      CoveredStays(s, WriteStep(s, payload), i);
    } else {
      NewWriteIsCovered(s, payload);
    }
  }

  lemma WriteKeepsAcks<T>(s: State<T>, payload: Option<T>)
    requires Acknowledged(s) && payload.Some?
    ensures Acknowledged(WriteStep(s, payload))
  {
    WriteKeepsChannel(s, payload);
    WriteKeepsGenerations(s, payload);
    if !s.closed {
      forall i | 0 <= i < |WriteStep(s, payload).writers| ensures Covered(WriteStep(s, payload), i) {
        WriteKeepsCovered(s, payload, i);
      }
    }
  }

  lemma NewWriteIsCovered<T>(s: State<T>, payload: Option<T>)
    requires Channel(s) && Generations(s) && !s.closed && payload.Some?
    ensures Covered(WriteStep(s, payload), |s.writers|)
  {
  }

  lemma NextKeepsGenerations<T>(s: State<T>)
    requires Generations(s) && !s.stopped
    ensures Generations(NextStep(s)) && NextStep(s).writers == s.writers
  {
  }

  lemma NextKeepsAcks<T>(s: State<T>)
    requires Acknowledged(s) && !s.stopped
    ensures Acknowledged(NextStep(s))
  {
    NextKeepsChannel(s);
    NextKeepsGenerations(s);
    forall i | 0 <= i < |s.writers| ensures Covered(NextStep(s), i) {
      NextKeepsCovered(s, i);
    }
  }

  /** The generation that next() resolves is one that a suspended write need not wait for any more. */
  lemma NextKeepsCovered<T>(s: State<T>, i: nat)
    requires Channel(s) && Generations(s) && !s.stopped && i < |s.writers| && Covered(s, i)
    ensures Covered(NextStep(s), i)
  {
  }

  lemma StopKeepsAcks<T>(s: State<T>)
    requires Acknowledged(s)
    ensures Acknowledged(ThrowStep(s)) && Acknowledged(ReturnStep(s))
  {
    StopKeepsChannel(s);
    var t, r := ThrowStep(s), ReturnStep(s);
    forall i | 0 <= i < |s.writers| ensures Covered(t, i) && Covered(r, i) {
      assert Covered(s, i);
    }
  }

  lemma ResumeKeepsAcks<T>(s: State<T>, w: nat)
    requires Acknowledged(s) && CanResume(s, w)
    ensures Acknowledged(ResumeStep(s, w))
  {
    var t := ResumeStep(s, w);
    forall i | 0 <= i < |t.writers| ensures Covered(t, i) {
      assert Covered(s, i);
    }
  }

  lemma AcksStep<T>(s: State<T>, e: Event<T>)
    requires Acknowledged(s) && Enabled(s, e) && (e.Write? ==> e.payload.Some?) && (s.stopped ==> !e.Next?)
    ensures Acknowledged(Step(s, e))
  {
    match e
    case Write(payload) => WriteKeepsAcks(s, payload);
    case Close =>
      CloseKeepsChannel(s);
      assert forall i :: 0 <= i < |s.writers| ==> Covered(s, i) == Covered(CloseStep(s), i);
    case Next => NextKeepsAcks(s);
    case Throw => StopKeepsAcks(s);
    case Return => StopKeepsAcks(s);
    case Resume(w) => ResumeKeepsAcks(s, w);
  }

  lemma {:induction false} AcksRun<T>(s: State<T>, events: seq<Event<T>>)
    requires Acknowledged(s) && Legal(s, events) && WritesOnly(events, Present<T>()) && NoNextAfterStop(s.stopped, events)
    ensures Acknowledged(Run(s, events))
    decreases |events|
  {
    if events != [] {
      AcksStep(s, events[0]);
      AcksRun(Step(s, events[0]), events[1..]);
    }
  }

  /** Write acknowledgement is safe: in every interleaving in which the consumer calls no next() after throw()
      or return(), a write() that fulfils has had its payload delivered to a read. */
  lemma AcknowledgedWasDelivered<T>(events: seq<Event<T>>, w: nat)
    requires Legal(Initial<T>(), events) && WritesOnly(events, Present<T>()) && NoNextAfterStop(false, events)
    ensures
      var s := Run(Initial(), events);
      w < |s.writers| && s.writers[w].Fulfilled? ==>
        w < |s.delivered| && w < |s.accepted| && s.delivered[w] == s.accepted[w] && Value(s.accepted[w]) in s.answers
  {
    AcksRun(Initial(), events);
    var s := Run(Initial(), events);
    if w < |s.writers| && s.writers[w].Fulfilled? {
      assert Covered(s, w);
      assert s.answers[w] == Value(s.accepted[w]);
    }
  }

  /** Every write that fulfils has had its payload delivered. */
  ghost predicate AcksAreTrue<T>(s: State<T>) {
    forall w :: 0 <= w < |s.writers| && s.writers[w].Fulfilled? ==>
      w < |s.delivered| && w < |s.accepted| && s.delivered[w] == s.accepted[w]
  }

  /** A single write of undefined is acknowledged by two calls of next(), and delivered to neither. */
  lemma UndefinedIsLost<T>()
    ensures
      var events: seq<Event<T>> := [Write(None)] + ([Next] + ([Resume(0)] + ([Next] + [Resume(0)])));
      && Legal(Initial<T>(), events) && NoNextAfterStop(false, events)
      && var s := Run(Initial<T>(), events);
         s.writers == [Fulfilled] && s.accepted == [None] && s.delivered == [] && s.writeQueue == [] && !s.stopped
  {
    var w: Event<T> := Write(None);
    var r: Event<T> := Resume(0);
    var s1 := Step(Initial<T>(), w);
    var s2 := Step(s1, Next);
    var s3 := Step(s2, r);
    var s4 := Step(s3, Next);
    RunCons(s4, r, []);
    assert [r] + [] == [r];
    RunCons(s3, Next, [r]);
    RunCons(s2, r, [Next] + [r]);
    RunCons(s1, Next, [r] + ([Next] + [r]));
    RunCons(Initial<T>(), w, [Next] + ([r] + ([Next] + [r])));
    var events: seq<Event<T>> := [w] + ([Next] + ([r] + ([Next] + [r])));
    NeverStops(events);
  }

  lemma {:induction false} NeverStops<T>(events: seq<Event<T>>)
    requires forall e :: e in events ==> !e.Throw? && !e.Return?
    ensures NoNextAfterStop(false, events)
    decreases |events|
  {
    if events != [] {
      NeverStops(events[1..]);
    }
  }

  /** Acknowledgement is safe in all runs, without next() after throw() or return(), if and only if undefined is
      never written. */
  lemma AcknowledgementIsSafe<T>(allowed: Option<T> -> bool)
    ensures
      (forall events :: Legal(Initial<T>(), events) && WritesOnly(events, allowed) && NoNextAfterStop(false, events)
        ==> AcksAreTrue(Run(Initial<T>(), events)))
      <==> !allowed(None)
  {
    if allowed(None) {
      UndefinedIsLost<T>();
      var events: seq<Event<T>> := [Write(None)] + ([Next] + ([Resume(0)] + ([Next] + [Resume(0)])));
      assert WritesOnly(events, allowed);
      assert !AcksAreTrue(Run(Initial<T>(), events));
    } else {
      forall events | Legal(Initial<T>(), events) && WritesOnly(events, allowed) && NoNextAfterStop(false, events)
        ensures AcksAreTrue(Run(Initial<T>(), events))
      {
        assert WritesOnly(events, Present<T>());
        forall w: nat { AcknowledgedWasDelivered(events, w); }
      }
    }
  }

  /** So is conservation: short of a throw or return, what was accepted is delivered or queued, in order. */
  lemma NothingIsLost<T>(allowed: Option<T> -> bool)
    ensures
      (forall events :: Legal(Initial<T>(), events) && WritesOnly(events, allowed) && !Run(Initial<T>(), events).stopped
        ==> Run(Initial<T>(), events).delivered + Run(Initial<T>(), events).writeQueue == Run(Initial<T>(), events).accepted)
      <==> !allowed(None)
  {
    if allowed(None) {
      UndefinedIsLost<T>();
      var events: seq<Event<T>> := [Write(None)] + ([Next] + ([Resume(0)] + ([Next] + [Resume(0)])));
      assert WritesOnly(events, allowed);
      assert |Run(Initial<T>(), events).delivered + Run(Initial<T>(), events).writeQueue| == 0;
    } else {
      forall events | Legal(Initial<T>(), events) && WritesOnly(events, allowed) && !Run(Initial<T>(), events).stopped
        ensures Run(Initial<T>(), events).delivered + Run(Initial<T>(), events).writeQueue
             == Run(Initial<T>(), events).accepted
      {
        assert WritesOnly(events, Present<T>());
        ChannelMeaning(events);
      }
    }
  }

  /** After throw() or return(), a write that was not delivered fails as soon as it is resumed twice. */
  lemma UndeliveredWriteFails<T>(s: State<T>, w: nat)
    requires Acknowledged(s) && s.stopped && |s.delivered| <= w < |s.writers| && CanResume(s, w)
    ensures
      var t := ResumeStep(s, w);
      t.writers[w].Failed? || (CanResume(t, w) && ResumeStep(t, w).writers[w].Failed?)
  {
    assert Covered(s, w);
  }

  /** A suspended write whose generation the next call of next() resolves, if it is not resolved already. */
  ghost predicate Resumable<T>(s: State<T>, w: nat) {
    && s.resolver < |s.promises|
    && w < |s.writers| && s.writers[w].Waiting? && s.writers[w].generation < |s.promises| && s.writers[w].left >= 1
    && var g := s.writers[w].generation;
       s.promises[g] == Resolved || (s.promises[g] == Pending && g == s.resolver)
  }

  /** So many calls of next(), each followed by the resumption of one write. */
  function Rounds<T>(w: nat, n: nat): seq<Event<T>> {
    if n == 0 then [] else [Next, Resume(w)] + Rounds(w, n - 1)
  }

  lemma {:induction false} RoundsOnlyRead<T>(w: nat, n: nat)
    ensures |Rounds<T>(w, n)| == 2 * n
    ensures forall e :: e in Rounds<T>(w, n) ==> e == Next || e == Resume(w)
  {
    if n > 0 {
      RoundsOnlyRead<T>(w, n - 1);
    }
  }

  lemma OneRound<T>(s: State<T>, w: nat)
    requires Resumable(s, w)
    ensures CanResume(NextStep(s), w)
    ensures
      var t := ResumeStep(NextStep(s), w);
      && t.writers == s.writers[w := t.writers[w]] && t.closed == s.closed && t.stopped == s.stopped
      && (s.closed && s.writeQueue == [] ==> t.writeQueue == [] && t.delivered == s.delivered)
      && (if s.writers[w].left == 1 then t.writers[w] == Fulfilled
          else Resumable(t, w) && t.writers[w].left == s.writers[w].left - 1)
  {
  }

  /** Calls of next() walk a suspended write through generation after generation: it is acknowledged after exactly as
      many rounds as it has awaits left. */
  lemma {:induction false} RoundsWalk<T>(s: State<T>, w: nat, n: nat)
    requires Resumable(s, w) && n <= s.writers[w].left
    ensures Legal(s, Rounds(w, n))
    ensures
      var t := Run(s, Rounds(w, n));
      && |t.writers| == |s.writers| && t.closed == s.closed && t.stopped == s.stopped
      && (s.closed && s.writeQueue == [] ==> t.delivered == s.delivered)
      && (if n < s.writers[w].left then t.writers[w].Waiting? && t.writers[w].left == s.writers[w].left - n
          else t.writers[w] == Fulfilled)
    decreases n
  {
    if n > 0 {
      OneRound(s, w);
      var s1 := NextStep(s);
      var s2 := ResumeStep(s1, w);
      if n > 1 {
        RoundsWalk(s2, w, n - 1);
      }
      var rest := Rounds<T>(w, n - 1);
      RunCons(s1, Resume(w), rest);
      RunCons(s, Next, [Resume(w)] + rest);
      assert Rounds<T>(w, n) == [Next] + ([Resume(w)] + rest);
    }
  }

  /** After a stop, too: calls of next() acknowledge a write, with nothing delivered. */
  lemma NextAcknowledges<T>(s: State<T>, w: nat) returns (events: seq<Event<T>>)
    requires Resumable(s, w) && s.closed && s.writeQueue == []
    ensures forall e :: e in events ==> !e.Write?
    ensures Legal(s, events) && |Run(s, events).writers| == |s.writers|
    ensures Run(s, events).writers[w] == Fulfilled && Run(s, events).delivered == s.delivered
  {
    events := Rounds(w, s.writers[w].left);
    RoundsOnlyRead<T>(w, s.writers[w].left);
    RoundsWalk(s, w, s.writers[w].left);
  }

  /** The state of the generation that a suspended write awaits. */
  function Awaited<T>(s: State<T>, w: nat): PromiseState {
    if w < |s.writers| && s.writers[w].Waiting? && s.writers[w].generation < |s.promises|
    then s.promises[s.writers[w].generation] else Pending
  }

  ghost predicate Doomed<T>(s: State<T>, w: nat) {
    && w < |s.writers| && s.nextPromise < |s.promises|
    && (s.writers[w].Failed?
        || (s.writers[w].Waiting? && s.writers[w].generation < |s.promises| && s.promises[s.writers[w].generation] == Rejected))
  }

  lemma DoomedStep<T>(s: State<T>, w: nat, e: Event<T>)
    requires Doomed(s, w) && Enabled(s, e)
    ensures Doomed(Step(s, e), w)
  {
  }

  lemma {:induction false} DoomedStays<T>(s: State<T>, w: nat, events: seq<Event<T>>)
    requires Doomed(s, w) && Legal(s, events)
    ensures Doomed(Run(s, events), w)
    decreases |events|
  {
    if events != [] {
      DoomedStep(s, w, events[0]);
      DoomedStays(Step(s, events[0]), w, events[1..]);
    }
  }

  /** Why the consumer must not go on: after throw() or return(), an undelivered write can still be acknowledged,
      by further calls of next(), exactly when the generation it awaits was not rejected. */
  lemma FalseAcknowledgement<T>(s: State<T>, w: nat)
    requires Acknowledged(s) && s.stopped && |s.delivered| <= w < |s.writers| && s.writers[w].Waiting?
    ensures
      (exists events :: Legal(s, events) && w < |Run(s, events).writers| && Run(s, events).writers[w] == Fulfilled)
      <==> Awaited(s, w) == Resolved
  {
    assert Covered(s, w);
    if Awaited(s, w) == Resolved {
      var events := NextAcknowledges(s, w);
    } else {
      assert s.promises[s.writers[w].generation] in s.promises;
      forall events | Legal(s, events) ensures Doomed(Run(s, events), w) {
        DoomedStays(s, w, events);
      }
    }
  }

  /** It does happen: write, return(), and two calls of next() acknowledge a payload that nobody received. */
  lemma FalseAcknowledgementHappens<T>(payload: T)
    ensures exists events: seq<Event<T>> ::
      && Legal(Initial<T>(), events) && WritesOnly(events, Present<T>())
      && var s := Run(Initial<T>(), events);
         s.writers == [Fulfilled] && s.delivered == []
  {
    var w: Event<T> := Write(Some(payload));
    var s0 := Initial<T>();
    var s1 := Step(s0, w);
    var s2 := Step(s1, Return);
    var rest := NextAcknowledges(s2, 0);
    RunCons(s1, Return, rest);
    RunCons(s0, w, [Return] + rest);
    var events := [w] + ([Return] + rest);
    assert WritesOnly(events, Present<T>());
  }

  // ---- writes go through -------------------------------------------------

  /** Until a stop, all generations but the current one are resolved, nothing is rejected, and no write has failed. */
  ghost predicate GoesOn<T>(s: State<T>) {
    && s.resolver < |s.promises| && s.nextPromise < |s.promises|
    && (!s.stopped ==>
          && s.nextPromise == s.resolver == |s.promises| - 1 && s.promises[s.nextPromise] == Pending
          && (forall g :: 0 <= g < s.nextPromise ==> s.promises[g] == Resolved)
          && forall i :: 0 <= i < |s.writers| ==>
               !s.writers[i].Failed?
               && (s.writers[i].Waiting? ==> s.writers[i].generation < |s.promises| && s.writers[i].left >= 1))
  }

  lemma GoesOnStep<T>(s: State<T>, e: Event<T>)
    requires GoesOn(s) && Enabled(s, e)
    ensures GoesOn(Step(s, e)) && (Step(s, e).stopped <==> s.stopped || IsStop(e))
  {
    match e
    case Write(_) =>
    case Close =>
    case Next =>
    case Throw =>
    case Return =>
    case Resume(_) =>
  }

  lemma {:induction false} GoesOnRun<T>(s: State<T>, events: seq<Event<T>>)
    requires GoesOn(s) && Legal(s, events)
    ensures GoesOn(Run(s, events))
    ensures Run(s, events).stopped <==> s.stopped || exists i :: 0 <= i < |events| && IsStop(events[i])
    decreases |events|
  {
    if events != [] {
      GoesOnStep(s, events[0]);
      GoesOnRun(Step(s, events[0]), events[1..]);
      assert forall i :: 0 < i < |events| ==> events[i] == events[1..][i - 1];
      if exists i :: 0 <= i < |events| && IsStop(events[i]) {
        var i :| 0 <= i < |events| && IsStop(events[i]);
        assert i == 0 || IsStop(events[1..][i - 1]);
      }
    }
  }

  /** No accepted write fails, whatever is written, unless the consumer calls throw() or return(). */
  lemma OnlyStopsFail<T>(events: seq<Event<T>>)
    requires Legal(Initial<T>(), events)
    ensures Failed in Run(Initial<T>(), events).writers ==> exists i :: 0 <= i < |events| && IsStop(events[i])
  {
    GoesOnRun(Initial<T>(), events);
  }

  /** Until then, every suspended write can be brought to fulfilment, by exactly as many calls of next(), each followed
      by its resumption, as it has awaits left. */
  lemma SuspendedGoesThrough<T>(events: seq<Event<T>>, w: nat)
    requires Legal(Initial<T>(), events)
    ensures
      var s := Run(Initial<T>(), events);
      !s.stopped && w < |s.writers| && s.writers[w].Waiting? ==>
        && Legal(s, Rounds(w, s.writers[w].left)) && |Run(s, Rounds(w, s.writers[w].left)).writers| == |s.writers|
        && Run(s, Rounds(w, s.writers[w].left)).writers[w] == Fulfilled
  {
    GoesOnRun(Initial<T>(), events);
    var s := Run(Initial<T>(), events);
    if !s.stopped && w < |s.writers| && s.writers[w].Waiting? {
      RoundsWalk(s, w, s.writers[w].left);
    }
  }

  /** A write that is accepted: handed to a read while more reads wait, it is fulfilled at once. Handed to the last
      one, or queued behind n others, it is suspended for one more round than there are payloads in the queue
      then: it is fulfilled after so many rounds, and not before. */
  lemma WriteGoesThrough<T>(events: seq<Event<T>>, payload: T, n: nat)
    requires Legal(Initial<T>(), events) && WritesOnly(events, Present<T>())
    requires
      var s := Run(Initial<T>(), events);
      !s.stopped && !s.closed && n <= |s.writeQueue| + 2
    ensures
      var s := Run(Initial<T>(), events);
      var t := Step(s, Write(Some(payload)));
      var w := |s.writers|;
      var rounds := if s.readQueue == [] then |s.writeQueue| + 2 else if |s.readQueue| == 1 then 1 else 0;
      && |t.writers| == w + 1
      && (s.readQueue != [] ==> Value(Some(payload)) in t.answers && t.delivered == s.delivered + [Some(payload)])
      && (rounds == 0 ==> t.writers[w] == Fulfilled)
      && (0 < rounds && n <= rounds ==>
            && Legal(t, Rounds(w, n)) && |Run(t, Rounds(w, n)).writers| == w + 1
            && (Run(t, Rounds(w, n)).writers[w] == Fulfilled <==> n == rounds))
  {
    GoesOnRun(Initial<T>(), events);
    ChannelRun(Initial(), events);
    var s := Run(Initial<T>(), events);
    var t := Step(s, Write(Some(payload)));
    GoesOnStep(s, Write(Some(payload)));
    if s.readQueue != [] {
      assert s.readQueue[0] < |s.answers| && t.answers[s.readQueue[0]] == Value(Some(payload));
    }
    if |s.readQueue| <= 1 && n <= t.writers[|s.writers|].left {
      RoundsWalk(t, |s.writers|, n);
    }
  }

  /** What a stop does to a suspended write: return() confirms one that only waits for its last read, and throw() fails
      even that, unless it was about to go on anyway; all others fail. */
  lemma StopsSettle<T>(events: seq<Event<T>>, w: nat)
    requires Legal(Initial<T>(), events) && !Run(Initial<T>(), events).stopped
    requires w < |Run(Initial<T>(), events).writers| && Run(Initial<T>(), events).writers[w].Waiting?
    ensures
      var s := Run(Initial<T>(), events);
      var last := s.writers[w].left == 1;
      Settles(ReturnStep(s), w, last) && Settles(ThrowStep(s), w, last && CanResume(s, w))
  {
    GoesOnRun(Initial<T>(), events);
  }

  /** Resuming a write once or twice settles it. */
  ghost predicate Settles<T>(s: State<T>, w: nat, fulfils: bool) {
    CanResume(s, w) &&
    var t := ResumeStep(s, w);
    if fulfils then t.writers[w] == Fulfilled
    else t.writers[w] == Failed || (CanResume(t, w) && ResumeStep(t, w).writers[w] == Failed)
  }

  /** The last await: whatever happens in between, short of a stop, one call of next() and the resumption fulfil it. */
  lemma {:induction false} LastAwait<T>(s: State<T>, w: nat, events: seq<Event<T>>)
    requires GoesOn(s) && w < |s.writers| && s.writers[w].Waiting? && s.writers[w].left == 1 && Legal(s, events)
    requires !Run(s, events).stopped && Resume(w) !in events
    ensures
      var t := Run(s, events);
      && w < |t.writers| && t.writers[w] == s.writers[w]
      && (CanResume(s, w) || Next in events ==> CanResume(t, w) && ResumeStep(t, w).writers[w] == Fulfilled)
    decreases |events|
  {
    GoesOnRun(s, events);
    if events != [] {
      var e, t := events[0], Step(s, events[0]);
      GoesOnStep(s, e);
      GoesOnRun(t, events[1..]);
      StillWaits(s, w, e);
      LastAwait(t, w, events[1..]);
      assert Next in events ==> e == Next || Next in events[1..];
    }
  }

  lemma StillWaits<T>(s: State<T>, w: nat, e: Event<T>)
    requires GoesOn(s) && w < |s.writers| && s.writers[w].Waiting? && Enabled(s, e) && e != Resume(w)
    requires !Step(s, e).stopped
    ensures w < |Step(s, e).writers| && Step(s, e).writers[w] == s.writers[w]
    ensures CanResume(s, w) || e == Next ==> CanResume(Step(s, e), w)
  {
  }

  // ---- the iterable ------------------------------------------------------

  /** The object itself. `promises`, `writers` and `answers` stand for the promises and suspended calls that the
      runtime keeps; `accepted`, `delivered` and `stopped` record what happened. */
  class Writable<T> {
    var readQueue: seq<nat>
    var writeQueue: seq<Option<T>>
    var closed: bool
    var promises: seq<PromiseState>
    var nextPromise: nat
    var resolver: nat
    var writers: seq<Writer>
    var answers: seq<Read<T>>
    ghost var accepted: seq<Option<T>>
    ghost var delivered: seq<Option<T>>
    ghost var stopped: bool

    ghost function Current(): State<T>
      reads this
    {
      State(readQueue, writeQueue, closed, promises, nextPromise, resolver, writers, answers,
            accepted, delivered, stopped)
    }

    constructor ()
      ensures Current() == Initial()
    {
      readQueue, writeQueue, closed := [], [], false;
      promises, nextPromise, resolver := [Pending], 0, 0;
      writers, answers := [], [];
      accepted, delivered, stopped := [], [], false;
    }

    /** Tells every queued read that there is nothing more. */
    method Drain()
      modifies this`readQueue, this`answers
      ensures readQueue == [] && answers == Drained(old(answers), old(readQueue))
    {
      var spliced := readQueue;
      readQueue := [];
      for i := 0 to |spliced|
        invariant readQueue == [] && answers == Drained(old(answers), spliced[..i])
      {
        answers := Answer(answers, spliced[i], Finished);
        assert spliced[..i + 1] == spliced[..i] + [spliced[i]];
      }
      assert spliced[..|spliced|] == spliced;
    }

    method CloseWriter()
      modifies this
      ensures Current() == CloseStep(old(Current()))
    {
      closed := true;
      Drain();
    }

    /** False when the iterable is closed and the call throws. */
    method WritePayload(payload: Option<T>) returns (ok: bool)
      modifies this
      ensures ok == !old(closed)
      ensures Current() == WriteStep(old(Current()), payload)
    {
      if closed {
        return false;
      }
      accepted := accepted + [payload];
      if readQueue == [] {
        writeQueue := writeQueue + [payload];
      } else {
        var read := readQueue[0];
        readQueue := readQueue[1..];
        answers := Answer(answers, read, Value(payload));
        delivered := delivered + [payload];
        if |readQueue| > 0 {
          writers := writers + [Fulfilled];
          return true;
        }
      }
      var limit := |writeQueue| + 1;
      writers := writers + [Waiting(nextPromise, limit)];
      return true;
    }

    method NextRead() returns (read: nat)
      modifies this
      ensures Current() == NextStep(old(Current())) && read == |old(answers)|
    {
      promises := Settle(promises, resolver, Resolved) + [Pending];
      nextPromise, resolver := |promises| - 1, |promises| - 1;
      read := |answers|;
      var write: Option<T> := None;
      if writeQueue != [] {
        write, writeQueue := writeQueue[0], writeQueue[1..];
      }
      if write.Some? {
        delivered := delivered + [write];
        answers := answers + [Value(write)];
        return;
      }
      if closed {
        answers := answers + [Finished];
        return;
      }
      answers := answers + [Unanswered];
      readQueue := readQueue + [read];
    }

    method ThrowInto()
      modifies this
      ensures Current() == ThrowStep(old(Current()))
    {
      closed, stopped := true, true;
      writeQueue := [];
      promises := Settle(promises, resolver, Rejected);
      Drain();
    }

    method ReturnFrom()
      modifies this
      ensures Current() == ReturnStep(old(Current()))
    {
      closed, stopped := true, true;
      writeQueue := [];
      promises := Settle(promises, resolver, Resolved);
      promises, nextPromise := promises + [Rejected], |promises|;
      Drain();
    }

    /** The runtime continues the loop of a suspended write(). */
    method ResumeWriter(w: nat)
      requires CanResume(Current(), w)
      modifies this`writers
      ensures Current() == ResumeStep(old(Current()), w)
    {
      var Waiting(generation, left) := writers[w];
      var next := if promises[generation].Rejected? then Failed
                  else if left <= 1 then Fulfilled
                  else Waiting(nextPromise, left - 1);
      writers := writers[w := next];
    }
  }
}
