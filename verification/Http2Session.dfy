/** Http2SessionManager: which connection is current, which ones are being retired, and how a ready
    connection counts its streams. */
module Http2Session {
  import opened Base

  /** What a ready state's onClose and onError are set to: nothing, a change of the manager's state, or the
      removal from the list of connections that are shutting down. */
  datatype Handler = Unset | ChangesState | Removes

  /** The variables of the closure ready(), and what it left with the connection: its listeners, whether it
      keeps the process alive, the streams it listens to, and the idle timers that have not fired. */
  datatype Ready = Ready(
    streamCount: int, openStreams: set<nat>, referenced: bool,
    idleTimeoutId: Option<nat>, timers: set<nat>, nextTimer: nat,
    receivedGoAway: bool, listening: bool, connClosed: bool,
    onClose: Handler, onError: Handler)

  /** setTimeout takes at most a signed 32-bit number of milliseconds. */
  const MAX_TIMEOUT := 0x7fff_ffff

  // ---- ready() -----------------------------------------------------------

  function ResetIdleTimeout(r: Ready, idleTimeoutMs: nat): Ready {
    if idleTimeoutMs > MAX_TIMEOUT then r.(idleTimeoutId := None)
    else r.(idleTimeoutId := Some(r.nextTimer), timers := r.timers + {r.nextTimer}, nextTimer := r.nextTimer + 1)
  }

  /** Clearing a timer that has fired, or was cleared before, does nothing. */
  function StopIdleTimeout(r: Ready): Ready {
    match r.idleTimeoutId
    case None => r
    case Some(id) => r.(timers := r.timers - {id})
  }

  function NewReady(idleTimeoutMs: nat): Ready {
    ResetIdleTimeout(Ready(0, {}, false, None, {}, 0, false, true, false, Unset, Unset), idleTimeoutMs)
  }

  function RegisterRequest(r: Ready, stream: nat): Ready {
    var r' := r.(streamCount := r.streamCount + 1, openStreams := r.openStreams + {stream});
    if r'.streamCount == 1 then StopIdleTimeout(r'.(referenced := true)) else r'
  }

  function StreamClosed(r: Ready, stream: nat, idleTimeoutMs: nat): Ready {
    var r' := r.(streamCount := r.streamCount - 1, openStreams := r.openStreams - {stream});
    if r'.streamCount == 0 then ResetIdleTimeout(r'.(referenced := false), idleTimeoutMs) else r'
  }

  function Cleanup(r: Ready): Ready {
    StopIdleTimeout(r).(listening := false)
  }

  /** A connection that was asked to shut down keeps its listeners when the manager leaves the state. */
  function OnExitState(r: Ready): Ready {
    if r.receivedGoAway then r else Cleanup(r).(onError := Unset, onClose := Unset)
  }

  /** The idle timer closes the connection, and reports it right away. */
  function IdleTimeout(r: Ready, timer: nat): Ready {
    Cleanup(r.(timers := r.timers - {timer}, connClosed := true))
  }

  // ---- stream accounting -------------------------------------------------

  /** The count is the number of registered streams that are not closed, the connection is referenced exactly
      when there are any, and at most one idle timer is outstanding, and only while there are none. */
  ghost predicate Accounts(r: Ready) {
    && r.streamCount == |r.openStreams|
    && (r.referenced <==> r.streamCount > 0)
    && (forall t :: t in r.timers ==> r.idleTimeoutId == Some(t) && t < r.nextTimer)
    && (r.timers != {} ==> r.openStreams == {})
  }

  lemma AtMostOneTimer(r: Ready)
    requires Accounts(r)
    ensures |r.timers| <= 1
  {
    if r.idleTimeoutId.Some? {
      assert r.timers <= {r.idleTimeoutId.value};
      SubsetSize(r.timers, {r.idleTimeoutId.value});
    } else {
      assert r.timers == {};
    }
  }

  lemma {:induction false} SubsetSize(a: set<nat>, b: set<nat>)
    requires a <= b
    ensures |a| <= |b|
  {
    if a != {} {
      var x :| x in a;
      SubsetSize(a - {x}, b - {x});
    }
  }

  lemma RegisterAccounts(r: Ready, stream: nat)
    requires Accounts(r) && stream !in r.openStreams
    ensures Accounts(RegisterRequest(r, stream))
  {
  }

  lemma StreamClosedAccounts(r: Ready, stream: nat, idleTimeoutMs: nat)
    requires Accounts(r) && stream in r.openStreams
    ensures Accounts(StreamClosed(r, stream, idleTimeoutMs))
  {
  }

  lemma RetiringAccounts(r: Ready, timer: nat)
    requires Accounts(r)
    ensures Accounts(Cleanup(r)) && Accounts(OnExitState(r)) && Accounts(IdleTimeout(r, timer))
  {
  }

  // ---- the manager -------------------------------------------------------

  datatype ManagerState = Closed | Error | Connecting(promise: nat) | Verifying(promise: nat) | IsReady(id: nat)

  /** A promise whose settlement the manager still waits for: a connection, or the verification of a ready state. */
  datatype Promised = Connection | Verification(id: nat)

  /** Ready states are named by their position in the list of all that were ever created. */
  datatype Manager = Manager(
    s: ManagerState, shuttingDown: seq<nat>, ready: seq<Ready>, pending: map<nat, Promised>, nextPromise: nat)

  function InitialManager(): Manager {
    Manager(Closed, [], [], map[], 0)
  }

  /** The state that setState is asked for. */
  datatype Target = ToClosed | ToError | ToConnecting | ToVerifying(id: nat) | ToReady(id: nat)

  function Update(m: Manager, id: nat, r: Ready): Manager {
    if id < |m.ready| then m.(ready := m.ready[id := r]) else m
  }

  /** The first half of setState: onExitState, and keeping a connection that was asked to shut down. */
  function Leave(m: Manager): Manager {
    if m.s.IsReady? && m.s.id < |m.ready| then
      var r := OnExitState(m.ready[m.s.id]);
      if r.receivedGoAway then
        Update(m, m.s.id, r.(onClose := Removes, onError := Removes)).(shuttingDown := m.shuttingDown + [m.s.id])
      else Update(m, m.s.id, r)
    else m
  }

  function Enter(m: Manager, target: Target): Manager {
    match target
    case ToClosed => m.(s := Closed)
    case ToError => m.(s := Error)
    case ToConnecting =>
      m.(s := Connecting(m.nextPromise), pending := m.pending[m.nextPromise := Connection], nextPromise := m.nextPromise + 1)
    case ToVerifying(id) =>
      m.(s := Verifying(m.nextPromise), pending := m.pending[m.nextPromise := Verification(id)], nextPromise := m.nextPromise + 1)
    case ToReady(id) =>
      if id < |m.ready| then
        Update(m, id, m.ready[id].(onClose := ChangesState, onError := ChangesState)).(s := IsReady(id))
      else m
  }

  function SetState(m: Manager, target: Target): Manager {
    Enter(Leave(m), target)
  }

  function ClosedOrError(canceled: bool): Target {
    if canceled then ToClosed else ToError
  }

  function RemoveFirst(list: seq<nat>, id: nat): seq<nat> {
    if list == [] then [] else if list[0] == id then list[1..] else [list[0]] + RemoveFirst(list[1..], id)
  }

  /** Calls state.onClose or state.onError. */
  function Invoke(m: Manager, id: nat, handler: Handler, target: Target): Manager {
    match handler
    case Unset => m
    case ChangesState => SetState(m, target)
    case Removes => m.(shuttingDown := RemoveFirst(m.shuttingDown, id))
  }

  // ---- events ------------------------------------------------------------

  /** Calls by the application, settlements of promises, in any order and however stale, and events of
      connections, streams and timers. A connection may be dead before its "close" event arrives, and for good
      if nobody listens. */
  datatype Event =
    | GotoReady(requiresVerify: bool)
    | Abort(canceled: bool)
    | Connected(promise: nat, sessionOpen: bool)
    | ConnectFailed(promise: nat, canceled: bool)
    | Verified(promise: nat)
    | VerifyReconnects(promise: nat)
    | VerifyFailed(promise: nat, canceled: bool)
    | Register(id: nat, stream: nat)
    | StreamClose(id: nat, stream: nat)
    | GoAway(id: nat)
    | ConnClose(id: nat)
    | ConnError(id: nat, canceled: bool)
    | IdleFires(id: nat, timer: nat)
    | ConnDies(id: nat)

  predicate Awaits(m: Manager, promise: nat, verification: bool) {
    promise in m.pending && m.pending[promise].Verification? == verification
  }

  predicate Enabled(m: Manager, e: Event) {
    match e
    case GotoReady(_) => true
    case Abort(_) => true
    case Connected(p, _) => Awaits(m, p, false)
    case ConnectFailed(p, _) => Awaits(m, p, false)
    case Verified(p) => Awaits(m, p, true)
    case VerifyReconnects(p) => Awaits(m, p, true)
    case VerifyFailed(p, _) => Awaits(m, p, true)
    case Register(id, stream) => id < |m.ready| && stream !in m.ready[id].openStreams
    case StreamClose(id, stream) => id < |m.ready| && stream in m.ready[id].openStreams
    case GoAway(id) => id < |m.ready| && m.ready[id].listening
    case ConnClose(id) => id < |m.ready| && m.ready[id].listening
    case ConnError(id, _) => id < |m.ready| && m.ready[id].listening
    case IdleFires(id, timer) => id < |m.ready| && timer in m.ready[id].timers
    case ConnDies(id) => id < |m.ready|
  }

  function Settled(m: Manager, promise: nat): Manager {
    m.(pending := m.pending - {promise})
  }

  function GotoReadyStep(m: Manager, requiresVerify: bool): Manager {
    match m.s
    case IsReady(id) =>
      if id < |m.ready| then
        if m.ready[id].receivedGoAway || m.ready[id].connClosed then SetState(m, ToConnecting)
        else if requiresVerify then SetState(m, ToVerifying(id))
        else m
      else m
    case Closed => SetState(m, ToConnecting)
    case Error => SetState(m, ToConnecting)
    case _ => m
  }

  /** Destroys the connections of the current state and of those shutting down. */
  function Destroy(m: Manager): Manager {
    var current := if m.s.IsReady? then {m.s.id}
                   else if m.s.Verifying? && m.s.promise in m.pending && m.pending[m.s.promise].Verification?
                   then {m.pending[m.s.promise].id} else {};
    m.(ready := seq(|m.ready|, i requires 0 <= i < |m.ready| =>
      if i in current || i in m.shuttingDown then m.ready[i].(connClosed := true) else m.ready[i]))
  }

  function Step(m: Manager, e: Event, idleTimeoutMs: nat): Manager
    requires Enabled(m, e)
  {
    match e
    case GotoReady(requiresVerify) => GotoReadyStep(m, requiresVerify)
    case Abort(canceled) => SetState(Destroy(m), ClosedOrError(canceled))
    case Connected(p, sessionOpen) =>
      if sessionOpen then SetState(Settled(m, p).(ready := m.ready + [NewReady(idleTimeoutMs)]), ToReady(|m.ready|))
      else Settled(m, p)
    case ConnectFailed(p, canceled) => SetState(Settled(m, p), ClosedOrError(canceled))
    case Verified(p) => SetState(Settled(m, p), ToReady(m.pending[p].id))
    case VerifyReconnects(p) => SetState(Settled(m, p), ToConnecting)
    case VerifyFailed(p, canceled) => SetState(Settled(m, p), ClosedOrError(canceled))
    case Register(id, stream) => Update(m, id, RegisterRequest(m.ready[id], stream))
    case StreamClose(id, stream) => Update(m, id, StreamClosed(m.ready[id], stream, idleTimeoutMs))
    case GoAway(id) => Update(m, id, m.ready[id].(receivedGoAway := true))
    case ConnClose(id) =>
      Invoke(Update(m, id, Cleanup(m.ready[id]).(connClosed := true)), id, m.ready[id].onClose, ToClosed)
    case ConnError(id, canceled) =>
      Invoke(Update(m, id, Cleanup(m.ready[id]).(connClosed := true)), id, m.ready[id].onError, ClosedOrError(canceled))
    case IdleFires(id, timer) =>
      Invoke(Update(m, id, IdleTimeout(m.ready[id], timer)), id, m.ready[id].onClose, ToClosed)
    case ConnDies(id) => Update(m, id, m.ready[id].(connClosed := true))
  }

  // ---- invariant ---------------------------------------------------------

  ghost predicate Distinct(list: seq<nat>) {
    forall i, j :: 0 <= i < j < |list| ==> list[i] != list[j]
  }

  predicate IsCurrent(m: Manager, id: nat) {
    m.s == IsReady(id)
  }

  /** A single ready state: only the current one may change the manager's state. */
  ghost predicate Consistent(m: Manager, id: nat)
    requires id < |m.ready|
  {
    var r := m.ready[id];
    && Accounts(r)
    && r.onClose == r.onError
    && (IsCurrent(m, id) ==> r.onClose == ChangesState)
    && (!IsCurrent(m, id) ==> r.onClose != ChangesState)
    && (id in m.shuttingDown ==> r.receivedGoAway && !IsCurrent(m, id) && r.onClose.Removes?)
  }

  /** A ready state that is being verified was left without GOAWAY, and its listeners are gone for good. */
  ghost predicate Verifiable(m: Manager, p: nat)
    requires p in m.pending
  {
    m.pending[p].Verification? ==>
      && m.pending[p].id < |m.ready| && !IsCurrent(m, m.pending[p].id)
      && !m.ready[m.pending[p].id].receivedGoAway && !m.ready[m.pending[p].id].listening
      && forall q :: q in m.pending && q != p ==> m.pending[q] != m.pending[p]
  }

  ghost predicate Inv(m: Manager) {
    && (m.s.IsReady? ==> m.s.id < |m.ready|)
    && (forall id :: 0 <= id < |m.ready| ==> Consistent(m, id))
    && (forall i :: 0 <= i < |m.shuttingDown| ==> m.shuttingDown[i] < |m.ready|)
    && Distinct(m.shuttingDown)
    && (forall p :: p in m.pending ==> p < m.nextPromise && Verifiable(m, p))
  }

  /** Changing the variables of one ready state keeps the invariant, as long as handlers stay, listeners are
      only lost, and GOAWAY is only received by a listener. */
  lemma UpdateKeeps(m: Manager, id: nat, r: Ready)
    requires Inv(m) && id < |m.ready| && Accounts(r)
    requires r.onClose == m.ready[id].onClose && r.onError == m.ready[id].onError
    requires r.listening ==> m.ready[id].listening
    requires m.ready[id].receivedGoAway ==> r.receivedGoAway
    requires r.receivedGoAway ==> m.ready[id].receivedGoAway || m.ready[id].listening
    ensures Inv(Update(m, id, r))
  {
    var m' := Update(m, id, r);
    forall i | 0 <= i < |m'.ready| ensures Consistent(m', i) {
      assert Consistent(m, i);
    }
    forall p | p in m'.pending ensures Verifiable(m', p) {
      assert Verifiable(m, p);
    }
  }

  /** Leaving a state: nobody is left who may change the manager's state. */
  lemma LeaveKeeps(m: Manager)
    requires Inv(m)
    ensures Inv(Leave(m).(s := Closed))
    ensures m.s.IsReady? && !m.ready[m.s.id].receivedGoAway ==>
      var r := Leave(m).ready[m.s.id]; !r.listening && !r.receivedGoAway && m.s.id !in Leave(m).shuttingDown
    ensures Leave(m).s == m.s && |Leave(m).ready| == |m.ready| && Leave(m).pending == m.pending
  {
    if m.s.IsReady? {
      assert Consistent(m, m.s.id);
      RetiringAccounts(m.ready[m.s.id], 0);
      LeaveReadyKeeps(m);
    } else {
      SameReadyKeeps(m, Leave(m).(s := Closed));
    }
  }

  lemma SameReadyKeeps(m: Manager, m': Manager)
    requires Inv(m) && !m.s.IsReady? && m' == m.(s := Closed)
    ensures Inv(m')
  {
    forall i | 0 <= i < |m'.ready| ensures Consistent(m', i) {
      assert Consistent(m, i);
    }
    forall p | p in m'.pending ensures Verifiable(m', p) {
      assert Verifiable(m, p);
    }
  }

  lemma LeaveReadyKeeps(m: Manager)
    requires Inv(m) && m.s.IsReady? && Accounts(OnExitState(m.ready[m.s.id]))
    ensures Inv(Leave(m).(s := Closed))
  {
    var m' := Leave(m).(s := Closed);
    assert m.s.id !in m.shuttingDown by {
      assert Consistent(m, m.s.id);
    }
    forall i | 0 <= i < |m'.ready| ensures Consistent(m', i) {
      assert Consistent(m, i);
    }
    forall p | p in m'.pending ensures Verifiable(m', p) {
      assert Verifiable(m, p);
    }
  }

  /** What setState may be asked for, once the previous state was left. */
  ghost predicate Admissible(m: Manager, target: Target) {
    match target
    case ToVerifying(id) =>
      && id < |m.ready| && !m.ready[id].receivedGoAway && !m.ready[id].listening
      && forall p :: p in m.pending ==> m.pending[p] != Verification(id)
    case ToReady(id) =>
      && id < |m.ready| && id !in m.shuttingDown
      && forall p :: p in m.pending ==> m.pending[p] != Verification(id)
    case _ => true
  }

  lemma EnterKeeps(m: Manager, target: Target)
    requires Inv(m) && !m.s.IsReady? && Admissible(m, target)
    ensures Inv(Enter(m, target))
  {
    var m' := Enter(m, target);
    forall i | 0 <= i < |m'.ready| ensures Consistent(m', i) {
      assert Consistent(m, i);
    }
    forall p | p in m'.pending ensures p < m'.nextPromise && Verifiable(m', p) {
      if p in m.pending {
        assert Verifiable(m, p);
      }
    }
  }

  lemma SetStateKeeps(m: Manager, target: Target)
    requires Inv(m) && Admissible(Leave(m), target)
    ensures Inv(SetState(m, target))
  {
    LeaveKeeps(m);
    EnterKeeps(Leave(m).(s := Closed), target);
    assert Enter(Leave(m), target) == Enter(Leave(m).(s := Closed), target);
  }

  lemma SettledKeeps(m: Manager, p: nat)
    requires Inv(m) && p in m.pending
    ensures Inv(Settled(m, p))
  {
    var m' := Settled(m, p);
    forall i | 0 <= i < |m'.ready| ensures Consistent(m', i) {
      assert Consistent(m, i);
    }
    forall q | q in m'.pending ensures Verifiable(m', q) {
      assert Verifiable(m, q);
    }
  }

  lemma GotoReadyKeeps(m: Manager, requiresVerify: bool)
    requires Inv(m)
    ensures Inv(GotoReadyStep(m, requiresVerify))
  {
    LeaveKeeps(m);
    match m.s
    case IsReady(id) =>
      if m.ready[id].receivedGoAway || m.ready[id].connClosed {
        SetStateKeeps(m, ToConnecting);
      } else if requiresVerify {
        assert forall p :: p in m.pending ==> Verifiable(m, p);
        SetStateKeeps(m, ToVerifying(id));
      }
    case Closed => SetStateKeeps(m, ToConnecting);
    case Error => SetStateKeeps(m, ToConnecting);
    case _ =>
  }

  lemma DestroyKeeps(m: Manager)
    requires Inv(m)
    ensures Inv(Destroy(m))
  {
    var m' := Destroy(m);
    forall i | 0 <= i < |m'.ready| ensures Consistent(m', i) {
      assert Consistent(m, i);
    }
    forall p | p in m'.pending ensures Verifiable(m', p) {
      assert Verifiable(m, p);
    }
  }

  lemma WithConnection(m: Manager, p: nat, idleTimeoutMs: nat)
    requires Inv(m) && Awaits(m, p, false)
    ensures Inv(Settled(m, p).(ready := m.ready + [NewReady(idleTimeoutMs)]))
  {
    SettledKeeps(m, p);
    var m1 := Settled(m, p);
    var m2 := m1.(ready := m.ready + [NewReady(idleTimeoutMs)]);
    forall i | 0 <= i < |m2.ready| ensures Consistent(m2, i) {
      if i < |m.ready| {
        assert Consistent(m1, i);
      } else {
      }
    }
    forall q | q in m2.pending ensures Verifiable(m2, q) {
      assert Verifiable(m1, q);
    }
  }

  /** A new connection: the state it becomes is none that the manager knows. */
  lemma ConnectedKeeps(m: Manager, p: nat, idleTimeoutMs: nat)
    requires Inv(m) && Awaits(m, p, false)
    ensures Inv(Step(m, Connected(p, true), idleTimeoutMs))
  {
    SettledKeeps(m, p);
    WithConnection(m, p, idleTimeoutMs);
    var m1 := Settled(m, p);
    var m2 := m1.(ready := m.ready + [NewReady(idleTimeoutMs)]);
    LeaveKeeps(m2);
    NewIsAdmissible(m1, m2, |m.ready|);
    SetStateKeeps(m2, ToReady(|m.ready|));
  }

  lemma NewIsAdmissible(m1: Manager, m2: Manager, id: nat)
    requires Inv(m1) && Inv(m2) && id == |m1.ready| < |m2.ready|
    requires m2.shuttingDown == m1.shuttingDown && m2.pending == m1.pending && m2.s == m1.s
    ensures Admissible(Leave(m2), ToReady(id))
  {
  }

  /** Re-entry: a verified ready state was not retired, and nobody else verifies it. */
  lemma VerifiedKeeps(m: Manager, p: nat, idleTimeoutMs: nat)
    requires Inv(m) && Awaits(m, p, true)
    ensures Inv(Step(m, Verified(p), idleTimeoutMs))
  {
    var id := m.pending[p].id;
    assert Verifiable(m, p) && Consistent(m, id);
    SettledKeeps(m, p);
    LeaveKeeps(Settled(m, p));
    assert id !in Leave(Settled(m, p)).shuttingDown;
    SetStateKeeps(Settled(m, p), ToReady(id));
  }

  lemma {:induction false} RemoveFirstIs(list: seq<nat>, id: nat)
    requires Distinct(list)
    ensures forall x :: x in RemoveFirst(list, id) <==> x in list && x != id
    ensures Distinct(RemoveFirst(list, id))
  {
    if list != [] {
      var first, tail := list[0], list[1..];
      assert list == [first] + tail;
      assert first !in tail && Distinct(tail);
      RemoveFirstIs(tail, id);
      if first != id {
        ConsDistinct(first, RemoveFirst(tail, id));
      }
    }
  }

  lemma ConsDistinct(first: nat, rest: seq<nat>)
    requires Distinct(rest) && first !in rest
    ensures Distinct([first] + rest)
  {
  }

  lemma RemoveKeeps(m: Manager, id: nat)
    requires Inv(m)
    ensures Inv(m.(shuttingDown := RemoveFirst(m.shuttingDown, id)))
  {
    RemoveFirstIs(m.shuttingDown, id);
    var m' := m.(shuttingDown := RemoveFirst(m.shuttingDown, id));
    forall i | 0 <= i < |m'.ready| ensures Consistent(m', i) {
      assert Consistent(m, i);
    }
    forall p | p in m'.pending ensures Verifiable(m', p) {
      assert Verifiable(m, p);
    }
    forall i | 0 <= i < |m'.shuttingDown| ensures m'.shuttingDown[i] < |m'.ready| {
      assert m'.shuttingDown[i] in m.shuttingDown;
    }
  }

  lemma InvokeKeeps(m: Manager, id: nat, handler: Handler, target: Target)
    requires Inv(m) && (target == ToClosed || target == ToError)
    ensures Inv(Invoke(m, id, handler, target))
  {
    match handler
    case Unset =>
    case ChangesState => SetStateKeeps(m, target);
    case Removes => RemoveKeeps(m, id);
  }

  lemma PromiseStepKeeps(m: Manager, e: Event, idleTimeoutMs: nat)
    requires Inv(m) && Enabled(m, e)
    requires e.Connected? || e.ConnectFailed? || e.Verified? || e.VerifyReconnects? || e.VerifyFailed?
    ensures Inv(Step(m, e, idleTimeoutMs))
  {
    SettledKeeps(m, e.promise);
    match e
    case Connected(p, sessionOpen) =>
      if sessionOpen {
        ConnectedKeeps(m, p, idleTimeoutMs);
      }
    case ConnectFailed(p, canceled) => SetStateKeeps(Settled(m, p), ClosedOrError(canceled));
    case Verified(p) => VerifiedKeeps(m, p, idleTimeoutMs);
    case VerifyReconnects(p) => SetStateKeeps(Settled(m, p), ToConnecting);
    case VerifyFailed(p, canceled) => SetStateKeeps(Settled(m, p), ClosedOrError(canceled));
  }

  lemma RegisterKeeps(m: Manager, id: nat, stream: nat)
    requires Inv(m) && id < |m.ready| && stream !in m.ready[id].openStreams
    ensures Inv(Update(m, id, RegisterRequest(m.ready[id], stream)))
  {
    assert Consistent(m, id);
    RegisterAccounts(m.ready[id], stream);
    UpdateKeeps(m, id, RegisterRequest(m.ready[id], stream));
  }

  lemma StreamCloseKeeps(m: Manager, id: nat, stream: nat, idleTimeoutMs: nat)
    requires Inv(m) && id < |m.ready| && stream in m.ready[id].openStreams
    ensures Inv(Update(m, id, StreamClosed(m.ready[id], stream, idleTimeoutMs)))
  {
    assert Consistent(m, id);
    StreamClosedAccounts(m.ready[id], stream, idleTimeoutMs);
    UpdateKeeps(m, id, StreamClosed(m.ready[id], stream, idleTimeoutMs));
  }

  lemma GoAwayKeeps(m: Manager, id: nat)
    requires Inv(m) && id < |m.ready| && m.ready[id].listening
    ensures Inv(Update(m, id, m.ready[id].(receivedGoAway := true)))
  {
    assert Consistent(m, id);
    UpdateKeeps(m, id, m.ready[id].(receivedGoAway := true));
  }

  lemma ConnectionStepKeeps(m: Manager, e: Event, idleTimeoutMs: nat)
    requires Inv(m) && Enabled(m, e) && (e.ConnClose? || e.ConnError? || e.IdleFires?)
    ensures Inv(Step(m, e, idleTimeoutMs))
  {
    match e
    case ConnClose(id) =>
      ClosedConnectionKeeps(m, id);
      InvokeKeeps(Update(m, id, Cleanup(m.ready[id]).(connClosed := true)), id, m.ready[id].onClose, ToClosed);
    case ConnError(id, canceled) =>
      ClosedConnectionKeeps(m, id);
      InvokeKeeps(Update(m, id, Cleanup(m.ready[id]).(connClosed := true)), id, m.ready[id].onError, ClosedOrError(canceled));
    case IdleFires(id, timer) =>
      assert Consistent(m, id);
      RetiringAccounts(m.ready[id], timer);
      UpdateKeeps(m, id, IdleTimeout(m.ready[id], timer));
      InvokeKeeps(Update(m, id, IdleTimeout(m.ready[id], timer)), id, m.ready[id].onClose, ToClosed);
  }

  lemma StepKeeps(m: Manager, e: Event, idleTimeoutMs: nat)
    requires Inv(m) && Enabled(m, e)
    ensures Inv(Step(m, e, idleTimeoutMs))
  {
    if e.GotoReady? {
      GotoReadyKeeps(m, e.requiresVerify);
    } else if e.Abort? {
      DestroyKeeps(m);
      SetStateKeeps(Destroy(m), ClosedOrError(e.canceled));
    } else if e.Register? {
      RegisterKeeps(m, e.id, e.stream);
    } else if e.StreamClose? {
      StreamCloseKeeps(m, e.id, e.stream, idleTimeoutMs);
    } else if e.GoAway? {
      GoAwayKeeps(m, e.id);
    } else if e.ConnDies? {
      assert Consistent(m, e.id);
      UpdateKeeps(m, e.id, m.ready[e.id].(connClosed := true));
    } else if e.ConnClose? || e.ConnError? || e.IdleFires? {
      ConnectionStepKeeps(m, e, idleTimeoutMs);
    } else {
      PromiseStepKeeps(m, e, idleTimeoutMs);
    }
  }

  lemma ClosedConnectionKeeps(m: Manager, id: nat)
    requires Inv(m) && id < |m.ready|
    ensures Inv(Update(m, id, Cleanup(m.ready[id]).(connClosed := true)))
  {
    assert Consistent(m, id);
    RetiringAccounts(m.ready[id], 0);
    UpdateKeeps(m, id, Cleanup(m.ready[id]).(connClosed := true));
  }

  // ---- runs --------------------------------------------------------------

  predicate Legal(m: Manager, events: seq<Event>, idleTimeoutMs: nat)
    decreases |events|
  {
    events == [] || (Enabled(m, events[0]) && Legal(Step(m, events[0], idleTimeoutMs), events[1..], idleTimeoutMs))
  }

  function Run(m: Manager, events: seq<Event>, idleTimeoutMs: nat): Manager
    requires Legal(m, events, idleTimeoutMs)
    decreases |events|
  {
    if events == [] then m else Run(Step(m, events[0], idleTimeoutMs), events[1..], idleTimeoutMs)
  }

  lemma {:induction false} RunKeeps(m: Manager, events: seq<Event>, idleTimeoutMs: nat)
    requires Inv(m) && Legal(m, events, idleTimeoutMs)
    ensures Inv(Run(m, events, idleTimeoutMs))
    decreases |events|
  {
    if events != [] {
      StepKeeps(m, events[0], idleTimeoutMs);
      RunKeeps(Step(m, events[0], idleTimeoutMs), events[1..], idleTimeoutMs);
    }
  }

  predicate ClosesOrFails(e: Event, id: nat) {
    e == ConnClose(id) || (e.ConnError? && e.id == id) || (e.IdleFires? && e.id == id) || e == ConnDies(id)
  }

  /** Retired connections never disturb the manager: after any run, the close, error or idle timeout of a ready
      state that is not current leaves the current state alone; the list of connections that are shutting down
      has no duplicates, holds only states that received GOAWAY, and never the current one. */
  lemma RetiredNeverDisturb(events: seq<Event>, idleTimeoutMs: nat)
    requires Legal(InitialManager(), events, idleTimeoutMs)
    ensures
      var m := Run(InitialManager(), events, idleTimeoutMs);
      && (forall id, e :: ClosesOrFails(e, id) && Enabled(m, e) && !IsCurrent(m, id) ==> Step(m, e, idleTimeoutMs).s == m.s)
      && Distinct(m.shuttingDown)
      && (forall i :: 0 <= i < |m.shuttingDown| ==>
            m.shuttingDown[i] < |m.ready| && m.ready[m.shuttingDown[i]].receivedGoAway && !IsCurrent(m, m.shuttingDown[i]))
  {
    RunKeeps(InitialManager(), events, idleTimeoutMs);
    var m := Run(InitialManager(), events, idleTimeoutMs);
    forall id, e | ClosesOrFails(e, id) && Enabled(m, e) && !IsCurrent(m, id) ensures Step(m, e, idleTimeoutMs).s == m.s {
      assert Consistent(m, id);
    }
    forall i | 0 <= i < |m.shuttingDown|
      ensures m.shuttingDown[i] < |m.ready| && m.ready[m.shuttingDown[i]].receivedGoAway && !IsCurrent(m, m.shuttingDown[i])
    {
      assert m.shuttingDown[i] in m.shuttingDown && Consistent(m, m.shuttingDown[i]);
    }
  }

  // ---- what calls and promises lead to -----------------------------------

  /** The manager waits for a connection on a promise that nobody waited for before. */
  ghost predicate ConnectsAnew(m: Manager, m': Manager) {
    && m'.s.Connecting? && m'.s.promise !in m.pending
    && m'.s.promise in m'.pending && m'.pending[m'.s.promise] == Connection
  }

  ghost predicate VerifiesAnew(m: Manager, m': Manager, id: nat) {
    && m'.s.Verifying? && m'.s.promise !in m.pending
    && m'.s.promise in m'.pending && m'.pending[m'.s.promise] == Verification(id)
  }

  /** A request never meets a manager that rests: after any run, it reconnects if it is closed, in error, or ready with
      a connection that is closed or shutting down; verifies a ready connection exactly if that is required; and
      leaves a connection or verification that is under way alone. */
  lemma RequestGoesOn(events: seq<Event>, requiresVerify: bool, idleTimeoutMs: nat)
    requires Legal(InitialManager(), events, idleTimeoutMs)
    ensures
      var m := Run(InitialManager(), events, idleTimeoutMs);
      var m' := Step(m, GotoReady(requiresVerify), idleTimeoutMs);
      match m.s
      case Closed => ConnectsAnew(m, m')
      case Error => ConnectsAnew(m, m')
      case Connecting(_) => m' == m
      case Verifying(_) => m' == m
      case IsReady(id) =>
        id < |m.ready| &&
        if m.ready[id].receivedGoAway || m.ready[id].connClosed then ConnectsAnew(m, m')
        else if requiresVerify then VerifiesAnew(m, m', id)
        else m' == m
  {
    RunKeeps(InitialManager(), events, idleTimeoutMs);
    LeaveKeeps(Run(InitialManager(), events, idleTimeoutMs));
  }

  /** What the settlement of a promise leads to, after any run: a fresh ready state for a new connection, and nothing
      if that is closed already; the ready state that was verified, or a new connection instead; and the error
      state for a failure, unless it is a cancelation. The promise is waited for no more. */
  lemma PromisesLead(events: seq<Event>, e: Event, idleTimeoutMs: nat)
    requires Legal(InitialManager(), events, idleTimeoutMs)
    requires Enabled(Run(InitialManager(), events, idleTimeoutMs), e)
    ensures
      var m := Run(InitialManager(), events, idleTimeoutMs);
      var m' := Step(m, e, idleTimeoutMs);
      match e
      case Connected(p, sessionOpen) =>
        && p !in m'.pending
        && (sessionOpen ==> IsCurrent(m', |m.ready|) && |m'.ready| == |m.ready| + 1 && IsFresh(m'.ready[|m.ready|]))
        && (!sessionOpen ==> m'.s == m.s && m'.ready == m.ready)
      case ConnectFailed(p, canceled) => p !in m'.pending && m'.s == (if canceled then Closed else Error)
      case Verified(p) => p !in m'.pending && IsCurrent(m', m.pending[p].id)
      case VerifyReconnects(p) => p !in m'.pending && ConnectsAnew(m, m')
      case VerifyFailed(p, canceled) => p !in m'.pending && m'.s == (if canceled then Closed else Error)
      case _ => true
  {
    RunKeeps(InitialManager(), events, idleTimeoutMs);
    PromiseLeads(Run(InitialManager(), events, idleTimeoutMs), e, idleTimeoutMs);
  }

  predicate IsFresh(r: Ready) {
    && r.streamCount == 0 && r.openStreams == {} && !r.referenced
    && r.listening && !r.receivedGoAway && !r.connClosed
  }

  lemma PromiseLeads(m: Manager, e: Event, idleTimeoutMs: nat)
    requires Inv(m) && Enabled(m, e)
    ensures
      var m' := Step(m, e, idleTimeoutMs);
      match e
      case Connected(p, sessionOpen) =>
        && p !in m'.pending
        && (sessionOpen ==> IsCurrent(m', |m.ready|) && |m'.ready| == |m.ready| + 1 && IsFresh(m'.ready[|m.ready|]))
        && (!sessionOpen ==> m'.s == m.s && m'.ready == m.ready)
      case ConnectFailed(p, canceled) => p !in m'.pending && m'.s == (if canceled then Closed else Error)
      case Verified(p) => p !in m'.pending && IsCurrent(m', m.pending[p].id)
      case VerifyReconnects(p) => p !in m'.pending && ConnectsAnew(m, m')
      case VerifyFailed(p, canceled) => p !in m'.pending && m'.s == (if canceled then Closed else Error)
      case _ => true
  {
    match e
    case Connected(p, sessionOpen) =>
      if sessionOpen {
        ConnectionLeads(m, p, idleTimeoutMs);
      }
    case Verified(p) => assert Verifiable(m, p);
    case _ =>
  }

  lemma ConnectionLeads(m: Manager, p: nat, idleTimeoutMs: nat)
    requires Inv(m) && Awaits(m, p, false)
    ensures
      var m' := Step(m, Connected(p, true), idleTimeoutMs);
      && p !in m'.pending && IsCurrent(m', |m.ready|) && |m'.ready| == |m.ready| + 1 && IsFresh(m'.ready[|m.ready|])
  {
  }

  /** The facts about a connection that no change of state touches. */
  ghost predicate SameFacts(m: Manager, m': Manager, id: nat) {
    id < |m.ready| && id < |m'.ready| &&
    var r, r' := m.ready[id], m'.ready[id];
    r'.connClosed == r.connClosed && r'.receivedGoAway == r.receivedGoAway && r'.openStreams == r.openStreams
  }

  lemma SetStateKeepsFacts(m: Manager, target: Target, id: nat)
    requires id < |m.ready|
    ensures SameFacts(m, SetState(m, target), id)
  {
    var left := Leave(m);
    assert SameFacts(m, left, id);
    assert SameFacts(left, Enter(left, target), id);
  }

  lemma InvokeKeepsFacts(m: Manager, closing: nat, handler: Handler, target: Target, id: nat)
    requires id < |m.ready|
    ensures SameFacts(m, Invoke(m, closing, handler, target), id)
  {
    if handler.ChangesState? {
      SetStateKeepsFacts(m, target, id);
    }
  }

  /** What happens to a connection is known afterwards, for good: that it closed or failed, or was closed by abort();
      that it received GOAWAY; and which of its streams are open. */
  ghost predicate Recorded(m: Manager, e: Event, m': Manager, id: nat) {
    id < |m.ready| && id < |m'.ready| &&
    var r, r' := m.ready[id], m'.ready[id];
    && (r'.connClosed <==> r.connClosed || ClosesOrFails(e, id) || (e.Abort? && InUse(m, id)))
    && (r'.receivedGoAway <==> r.receivedGoAway || e == GoAway(id))
    && forall stream :: stream in r'.openStreams
         <==> e == Register(id, stream) || (stream in r.openStreams && e != StreamClose(id, stream))
  }

  lemma EventsAreRecorded(events: seq<Event>, e: Event, id: nat, idleTimeoutMs: nat)
    requires Legal(InitialManager(), events, idleTimeoutMs)
    requires Enabled(Run(InitialManager(), events, idleTimeoutMs), e)
    requires id < |Run(InitialManager(), events, idleTimeoutMs).ready|
    ensures
      var m := Run(InitialManager(), events, idleTimeoutMs);
      Recorded(m, e, Step(m, e, idleTimeoutMs), id)
  {
    RunKeeps(InitialManager(), events, idleTimeoutMs);
    var m := Run(InitialManager(), events, idleTimeoutMs);
    if e.GotoReady? {
      RequestKeepsFacts(m, e, id, idleTimeoutMs);
    } else if e.Abort? {
      AbortIsRecorded(m, e, id, idleTimeoutMs);
    } else if e.ConnClose? || e.ConnError? || e.IdleFires? {
      ClosingIsRecorded(m, e, id, idleTimeoutMs);
    } else if e.Register? || e.StreamClose? || e.GoAway? || e.ConnDies? {
      ConnectionIsRecorded(m, e, id, idleTimeoutMs);
    } else {
      PromiseKeepsFacts(m, e, id, idleTimeoutMs);
    }
  }

  lemma AbortIsRecorded(m: Manager, e: Event, id: nat, idleTimeoutMs: nat)
    requires Inv(m) && e.Abort? && id < |m.ready|
    ensures Recorded(m, e, Step(m, e, idleTimeoutMs), id)
  {
    SetStateKeepsFacts(Destroy(m), ClosedOrError(e.canceled), id);
  }

  lemma ConnectionIsRecorded(m: Manager, e: Event, id: nat, idleTimeoutMs: nat)
    requires Inv(m) && Enabled(m, e) && id < |m.ready| && (e.Register? || e.StreamClose? || e.GoAway? || e.ConnDies?)
    ensures Recorded(m, e, Step(m, e, idleTimeoutMs), id)
  {
  }

  lemma PromiseKeepsFacts(m: Manager, e: Event, id: nat, idleTimeoutMs: nat)
    requires Inv(m) && Enabled(m, e) && id < |m.ready|
    requires e.Connected? || e.ConnectFailed? || e.Verified? || e.VerifyReconnects? || e.VerifyFailed?
    ensures SameFacts(m, Step(m, e, idleTimeoutMs), id)
  {
    var m1 := Settled(m, e.promise);
    match e
    case Connected(p, _) =>
      var m2 := m1.(ready := m.ready + [NewReady(idleTimeoutMs)]);
      assert SameFacts(m, m2, id);
      SetStateKeepsFacts(m2, ToReady(|m.ready|), id);
    case ConnectFailed(_, canceled) => SetStateKeepsFacts(m1, ClosedOrError(canceled), id);
    case Verified(p) => SetStateKeepsFacts(m1, ToReady(m.pending[p].id), id);
    case VerifyReconnects(_) => SetStateKeepsFacts(m1, ToConnecting, id);
    case VerifyFailed(_, canceled) => SetStateKeepsFacts(m1, ClosedOrError(canceled), id);
  }

  lemma RequestKeepsFacts(m: Manager, e: Event, id: nat, idleTimeoutMs: nat)
    requires Inv(m) && e.GotoReady? && id < |m.ready|
    ensures SameFacts(m, Step(m, e, idleTimeoutMs), id)
  {
    SetStateKeepsFacts(m, ToConnecting, id);
    if m.s.IsReady? {
      SetStateKeepsFacts(m, ToVerifying(m.s.id), id);
    }
  }

  lemma ClosingIsRecorded(m: Manager, e: Event, id: nat, idleTimeoutMs: nat)
    requires Inv(m) && Enabled(m, e) && id < |m.ready| && (e.ConnClose? || e.ConnError? || e.IdleFires?)
    ensures
      var m' := Step(m, e, idleTimeoutMs);
      && id < |m'.ready| && (m'.ready[id].connClosed <==> m.ready[id].connClosed || id == e.id)
      && m'.ready[id].receivedGoAway == m.ready[id].receivedGoAway && m'.ready[id].openStreams == m.ready[id].openStreams
  {
    var r := if e.IdleFires? then IdleTimeout(m.ready[e.id], e.timer) else Cleanup(m.ready[e.id]).(connClosed := true);
    var target := if e.ConnError? then ClosedOrError(e.canceled) else ToClosed;
    var handler := if e.ConnError? then m.ready[e.id].onError else m.ready[e.id].onClose;
    InvokeKeepsFacts(Update(m, e.id, r), e.id, handler, target, id);
  }

  // ---- what the manager hears --------------------------------------------

  /** The ready state that an event re-enters after verification. */
  function ReenteredBy(m: Manager, e: Event): set<nat>
    requires Enabled(m, e)
  {
    if e.Verified? then {m.pending[e.promise].id} else {}
  }

  /** The ready states that were re-entered after verification in a run. */
  function Reentered(m: Manager, events: seq<Event>, idleTimeoutMs: nat): set<nat>
    requires Legal(m, events, idleTimeoutMs)
    decreases |events|
  {
    if events == [] then {}
    else ReenteredBy(m, events[0]) + Reentered(Step(m, events[0], idleTimeoutMs), events[1..], idleTimeoutMs)
  }

  /** The manager listens to its current connection exactly if it is none of the `deaf`. */
  ghost predicate Hears(m: Manager, deaf: set<nat>) {
    && (forall id :: id in deaf ==> id < |m.ready|)
    && (m.s.IsReady? ==> m.s.id < |m.ready| && (m.ready[m.s.id].listening <==> m.s.id !in deaf))
  }

  /** Unless a promise for a ready state is fulfilled, what is current stays so, and keeps its listeners. */
  lemma CurrentSame(m: Manager, e: Event, id: nat, idleTimeoutMs: nat)
    requires Inv(m) && Enabled(m, e) && IsCurrent(Step(m, e, idleTimeoutMs), id) && !e.Connected? && !e.Verified?
    ensures IsCurrent(m, id) && id < |m.ready| <= |Step(m, e, idleTimeoutMs).ready|
    ensures Step(m, e, idleTimeoutMs).ready[id].listening == m.ready[id].listening
  {
    if e.ConnClose? || e.ConnError? || e.IdleFires? {
      assert Consistent(m, e.id);
    }
  }

  lemma CurrentAfterPromise(m: Manager, e: Event, id: nat, idleTimeoutMs: nat)
    requires Inv(m) && Enabled(m, e) && IsCurrent(Step(m, e, idleTimeoutMs), id)
    requires e.Connected? || e.Verified?
    ensures
      var m' := Step(m, e, idleTimeoutMs);
      && id < |m'.ready|
      && if e.Verified? then m.pending[e.promise].id == id && !m'.ready[id].listening
         else if e.sessionOpen then id == |m.ready| && m'.ready[id].listening
         else IsCurrent(m, id) && m'.ready == m.ready
  {
    if e.Verified? {
      assert Verifiable(m, e.promise);
    }
  }

  /** A ready state becomes current when its connection is established, or when it was verified; otherwise the
      current one keeps its listeners. */
  lemma CurrentAfter(m: Manager, e: Event, id: nat, idleTimeoutMs: nat)
    requires Inv(m) && Enabled(m, e) && IsCurrent(Step(m, e, idleTimeoutMs), id)
    ensures
      var m' := Step(m, e, idleTimeoutMs);
      && id < |m'.ready|
      && if e.Verified? then m.pending[e.promise].id == id && !m'.ready[id].listening
         else if e.Connected? && e.sessionOpen then id == |m.ready| && m'.ready[id].listening
         else IsCurrent(m, id) && id < |m.ready| && m'.ready[id].listening == m.ready[id].listening
  {
    if e.Connected? || e.Verified? {
      CurrentAfterPromise(m, e, id, idleTimeoutMs);
    } else {
      CurrentSame(m, e, id, idleTimeoutMs);
    }
  }

  lemma {:induction false} RunHears(m: Manager, events: seq<Event>, deaf: set<nat>, idleTimeoutMs: nat)
    requires Inv(m) && Hears(m, deaf) && Legal(m, events, idleTimeoutMs)
    ensures Hears(Run(m, events, idleTimeoutMs), deaf + Reentered(m, events, idleTimeoutMs))
    decreases |events|
  {
    if events == [] {
      assert deaf + Reentered(m, events, idleTimeoutMs) == deaf;
    } else {
      var e, rest := events[0], events[1..];
      var m' := Step(m, e, idleTimeoutMs);
      StepKeeps(m, e, idleTimeoutMs);
      StepHears(m, e, deaf, idleTimeoutMs);
      RunHears(m', rest, deaf + ReenteredBy(m, e), idleTimeoutMs);
      assert deaf + ReenteredBy(m, e) + Reentered(m', rest, idleTimeoutMs)
        == deaf + Reentered(m, events, idleTimeoutMs);
    }
  }

  lemma StepHears(m: Manager, e: Event, deaf: set<nat>, idleTimeoutMs: nat)
    requires Inv(m) && Hears(m, deaf) && Enabled(m, e)
    ensures Hears(Step(m, e, idleTimeoutMs), deaf + ReenteredBy(m, e))
  {
    var m' := Step(m, e, idleTimeoutMs);
    ReadyGrows(m, e, idleTimeoutMs);
    if e.Verified? {
      assert Verifiable(m, e.promise);
    }
    if m'.s.IsReady? {
      CurrentAfter(m, e, m'.s.id, idleTimeoutMs);
    }
  }

  lemma SetStateLength(m: Manager, target: Target)
    ensures |SetState(m, target).ready| == |m.ready|
  {
  }

  lemma InvokeLength(m: Manager, id: nat, handler: Handler, target: Target)
    ensures |Invoke(m, id, handler, target).ready| == |m.ready|
  {
    SetStateLength(m, target);
  }

  lemma ReadyGrows(m: Manager, e: Event, idleTimeoutMs: nat)
    requires Enabled(m, e)
    ensures |Step(m, e, idleTimeoutMs).ready| == |m.ready| + (if e.Connected? && e.sessionOpen then 1 else 0)
  {
    match e
    case GotoReady(_) =>
    case Abort(canceled) => SetStateLength(Destroy(m), ClosedOrError(canceled));
    case Connected(p, sessionOpen) =>
      SetStateLength(Settled(m, p).(ready := m.ready + [NewReady(idleTimeoutMs)]), ToReady(|m.ready|));
    case ConnectFailed(p, canceled) => SetStateLength(Settled(m, p), ClosedOrError(canceled));
    case Verified(p) => SetStateLength(Settled(m, p), ToReady(m.pending[p].id));
    case VerifyReconnects(p) => SetStateLength(Settled(m, p), ToConnecting);
    case VerifyFailed(p, canceled) => SetStateLength(Settled(m, p), ClosedOrError(canceled));
    case Register(_, _) =>
    case StreamClose(_, _) =>
    case GoAway(_) =>
    case ConnDies(_) =>
    case ConnClose(id) =>
      InvokeLength(Update(m, id, Cleanup(m.ready[id]).(connClosed := true)), id, m.ready[id].onClose, ToClosed);
    case ConnError(id, canceled) =>
      InvokeLength(Update(m, id, Cleanup(m.ready[id]).(connClosed := true)), id, m.ready[id].onError, ClosedOrError(canceled));
    case IdleFires(id, timer) =>
      InvokeLength(Update(m, id, IdleTimeout(m.ready[id], timer)), id, m.ready[id].onClose, ToClosed);
  }

  /** What happens when a connection closes, or fails: it is heard only by listeners. */
  function CloseOf(m: Manager, id: nat): Event
    requires id < |m.ready|
  {
    if m.ready[id].listening then ConnClose(id) else ConnDies(id)
  }

  function FailureOf(m: Manager, id: nat, canceled: bool): Event
    requires id < |m.ready|
  {
    if m.ready[id].listening then ConnError(id, canceled) else ConnDies(id)
  }

  lemma HeardCurrent(m: Manager, id: nat, canceled: bool, idleTimeoutMs: nat)
    requires Inv(m) && IsCurrent(m, id)
    ensures
      var heard := m.ready[id].listening;
      && Enabled(m, CloseOf(m, id)) && Enabled(m, FailureOf(m, id, canceled))
      && Step(m, CloseOf(m, id), idleTimeoutMs).s == (if heard then Closed else IsReady(id))
      && Step(m, FailureOf(m, id, canceled), idleTimeoutMs).s
           == (if heard then (if canceled then Closed else Error) else IsReady(id))
      && (Enabled(m, GoAway(id)) <==> heard)
      && forall timer :: Enabled(m, IdleFires(id, timer)) ==> Step(m, IdleFires(id, timer), idleTimeoutMs).s == Closed
  {
    assert Consistent(m, id);
  }

  /** The current connection does disturb: after any run, its close closes the manager, its error is kept as the
      manager's error unless it is a cancelation, and its GOAWAY is noticed, if and only if it was never re-entered
      after a verification. Its idle timeout always closes the manager. */
  lemma CurrentDisturbs(events: seq<Event>, id: nat, canceled: bool, idleTimeoutMs: nat)
    requires Legal(InitialManager(), events, idleTimeoutMs)
    requires IsCurrent(Run(InitialManager(), events, idleTimeoutMs), id)
    ensures
      var m := Run(InitialManager(), events, idleTimeoutMs);
      var deaf := id in Reentered(InitialManager(), events, idleTimeoutMs);
      && id < |m.ready|
      && Enabled(m, CloseOf(m, id)) && Enabled(m, FailureOf(m, id, canceled))
      && Step(m, CloseOf(m, id), idleTimeoutMs).s == (if deaf then IsReady(id) else Closed)
      && Step(m, FailureOf(m, id, canceled), idleTimeoutMs).s
           == (if deaf then IsReady(id) else if canceled then Closed else Error)
      && (Enabled(m, GoAway(id)) <==> !deaf)
      && forall timer :: Enabled(m, IdleFires(id, timer)) ==> Step(m, IdleFires(id, timer), idleTimeoutMs).s == Closed
  {
    RunKeeps(InitialManager(), events, idleTimeoutMs);
    RunHears(InitialManager(), events, {}, idleTimeoutMs);
    assert {} + Reentered(InitialManager(), events, idleTimeoutMs) == Reentered(InitialManager(), events, idleTimeoutMs);
    HeardCurrent(Run(InitialManager(), events, idleTimeoutMs), id, canceled, idleTimeoutMs);
  }

  lemma RunCons(m: Manager, e: Event, rest: seq<Event>, idleTimeoutMs: nat)
    requires Enabled(m, e) && Legal(Step(m, e, idleTimeoutMs), rest, idleTimeoutMs)
    ensures Legal(m, [e] + rest, idleTimeoutMs)
    ensures Run(m, [e] + rest, idleTimeoutMs) == Run(Step(m, e, idleTimeoutMs), rest, idleTimeoutMs)
  {
    assert ([e] + rest)[1..] == rest;
  }

  function FirstReady(idleTimeoutMs: nat): Manager {
    Manager(IsReady(0), [], [NewReady(idleTimeoutMs).(onClose := ChangesState, onError := ChangesState)], map[], 1)
  }

  lemma FirstConnected(m: Manager, idleTimeoutMs: nat)
    requires m == Manager(Connecting(0), [], [], map[0 := Connection], 1)
    ensures Step(m, Connected(0, true), idleTimeoutMs) == FirstReady(idleTimeoutMs)
  {
    var r := NewReady(idleTimeoutMs);
    assert m.pending - {0} == map[];
    assert ([] + [r])[0 := r.(onClose := ChangesState, onError := ChangesState)]
      == [r.(onClose := ChangesState, onError := ChangesState)];
  }

  lemma FirstConnection(rest: seq<Event>, idleTimeoutMs: nat)
    requires Legal(FirstReady(idleTimeoutMs), rest, idleTimeoutMs)
    ensures
      var events := [GotoReady(false)] + ([Connected(0, true)] + rest);
      && Legal(InitialManager(), events, idleTimeoutMs)
      && Run(InitialManager(), events, idleTimeoutMs) == Run(FirstReady(idleTimeoutMs), rest, idleTimeoutMs)
  {
    var m1 := Manager(Connecting(0), [], [], map[0 := Connection], 1);
    assert Step(InitialManager(), GotoReady(false), idleTimeoutMs) == m1;
    FirstConnected(m1, idleTimeoutMs);
    RunCons(m1, Connected(0, true), rest, idleTimeoutMs);
    RunCons(InitialManager(), GotoReady(false), [Connected(0, true)] + rest, idleTimeoutMs);
  }

  /** Verification of a fresh connection: it is left, cleaned up, and re-entered. */
  lemma FirstVerification(m: Manager, idleTimeoutMs: nat)
    requires m.s == IsReady(0) && |m.ready| == 1 && m.pending == map[] && m.nextPromise == 1
    requires Accounts(m.ready[0]) && m.ready[0].openStreams == {}
    requires !m.ready[0].receivedGoAway && !m.ready[0].connClosed
    ensures Legal(m, [GotoReady(true), Verified(1)], idleTimeoutMs)
    ensures
      var m' := Run(m, [GotoReady(true), Verified(1)], idleTimeoutMs);
      && m'.s == IsReady(0) && |m'.ready| == 1 && !m'.ready[0].listening
      && m'.ready[0].openStreams == {} && m'.ready[0].timers == {}
  {
    var m1 := Step(m, GotoReady(true), idleTimeoutMs);
    LeaveTimes(m, 0);
    assert m1.s == Verifying(1) && m1.pending == map[1 := Verification(0)];
    RunCons(m1, Verified(1), [], idleTimeoutMs);
    RunCons(m, GotoReady(true), [Verified(1)], idleTimeoutMs);
  }

  /** The manager holds on to a connection that dies, with no stream and no idle timer. */
  ghost predicate DiesInSilence(m: Manager, idleTimeoutMs: nat) {
    && IsCurrent(m, 0) && Enabled(m, ConnDies(0))
    && !Enabled(m, ConnClose(0)) && !Enabled(m, ConnError(0, false)) && !Enabled(m, GoAway(0))
    && var m' := Step(m, ConnDies(0), idleTimeoutMs);
       && IsCurrent(m', 0) && |m'.ready| == 1 && m'.ready[0].connClosed
       && m'.ready[0].openStreams == {} && m'.ready[0].timers == {}
  }

  lemma DiesDeaf(m: Manager, idleTimeoutMs: nat)
    requires m.s == IsReady(0) && |m.ready| == 1 && !m.ready[0].listening
    requires m.ready[0].openStreams == {} && m.ready[0].timers == {}
    ensures DiesInSilence(m, idleTimeoutMs)
  {
  }

  /** It does happen: connect, verify, and the connection dies unheard. */
  lemma DeafAfterVerification(idleTimeoutMs: nat)
    ensures
      var events := [GotoReady(false)] + ([Connected(0, true)] + [GotoReady(true), Verified(1)]);
      && Legal(InitialManager(), events, idleTimeoutMs)
      && DiesInSilence(Run(InitialManager(), events, idleTimeoutMs), idleTimeoutMs)
  {
    var first, rest := FirstReady(idleTimeoutMs), [GotoReady(true), Verified(1)];
    FirstVerification(first, idleTimeoutMs);
    DiesDeaf(Run(first, rest, idleTimeoutMs), idleTimeoutMs);
    FirstConnection(rest, idleTimeoutMs);
  }

  lemma LeaveKeepsClosed(m: Manager, id: nat)
    ensures id in Leave(m).shuttingDown ==> id in m.shuttingDown || IsCurrent(m, id)
    ensures id < |m.ready| && m.ready[id].connClosed ==> id < |Leave(m).ready| && Leave(m).ready[id].connClosed
  {
  }

  /** The connections that abort() must close. */
  predicate InUse(m: Manager, id: nat) {
    || IsCurrent(m, id) || id in m.shuttingDown
    || (m.s.Verifying? && m.s.promise in m.pending && m.pending[m.s.promise] == Verification(id))
  }

  lemma DestroyCloses(m: Manager, id: nat)
    requires Inv(m) && InUse(m, id)
    ensures id < |m.ready| && Destroy(m).ready[id].connClosed
  {
    if m.s.Verifying? && m.s.promise in m.pending {
      assert Verifiable(m, m.s.promise);
    }
  }

  /** abort() leaves no connection open that was current, being verified, or shutting down, and none that the
      manager still lists; and it leaves the manager closed, or in error if it was given another reason. */
  lemma AbortClosesAll(events: seq<Event>, canceled: bool, id: nat, idleTimeoutMs: nat)
    requires Legal(InitialManager(), events, idleTimeoutMs)
    ensures
      var m := Run(InitialManager(), events, idleTimeoutMs);
      var m' := Step(m, Abort(canceled), idleTimeoutMs);
      && m'.s == (if canceled then Closed else Error)
      && (InUse(m, id) || InUse(m', id) ==> id < |m'.ready| && m'.ready[id].connClosed)
  {
    RunKeeps(InitialManager(), events, idleTimeoutMs);
    var m := Run(InitialManager(), events, idleTimeoutMs);
    LeaveKeepsClosed(Destroy(m), id);
    if InUse(m, id) {
      DestroyCloses(m, id);
    }
  }

  /** A connection that received GOAWAY never becomes current again once it was left, whatever settles late. */
  lemma GoAwayIsFinal(events: seq<Event>, e: Event, id: nat, idleTimeoutMs: nat)
    requires Legal(InitialManager(), events, idleTimeoutMs)
    requires
      var m := Run(InitialManager(), events, idleTimeoutMs);
      Enabled(m, e) && id < |m.ready| && m.ready[id].receivedGoAway && !IsCurrent(m, id)
    ensures !IsCurrent(Step(Run(InitialManager(), events, idleTimeoutMs), e, idleTimeoutMs), id)
  {
    RunKeeps(InitialManager(), events, idleTimeoutMs);
    var m := Run(InitialManager(), events, idleTimeoutMs);
    if e.Verified? {
      assert Verifiable(m, e.promise);
    }
    if IsCurrent(Step(m, e, idleTimeoutMs), id) {
      CurrentAfter(m, e, id, idleTimeoutMs);
      assert false;
    }
  }

  /** Stream accounting: after any run the count of every connection is the number of its open streams, it is
      referenced exactly when that is positive, at most one idle timer is outstanding, and one that can
      fire finds no open stream, even on a connection that was left, cleaned up, or re-entered. */
  lemma StreamsAreCounted(events: seq<Event>, id: nat, idleTimeoutMs: nat)
    requires Legal(InitialManager(), events, idleTimeoutMs)
    ensures
      var m := Run(InitialManager(), events, idleTimeoutMs);
      id < |m.ready| ==>
        var r := m.ready[id];
        && r.streamCount == |r.openStreams|
        && (r.referenced <==> r.openStreams != {})
        && |r.timers| <= 1
        && forall timer :: Enabled(m, IdleFires(id, timer)) ==> r.openStreams == {}
  {
    RunKeeps(InitialManager(), events, idleTimeoutMs);
    var m := Run(InitialManager(), events, idleTimeoutMs);
    if id < |m.ready| {
      assert Consistent(m, id);
      AtMostOneTimer(m.ready[id]);
    }
  }

  // ---- what becomes of retired connections -------------------------------

  /** The connection that an event retires by its own close: it received GOAWAY while it was current. */
  function RetiredByClosing(m: Manager, e: Event): set<nat>
    requires Enabled(m, e)
  {
    if (e.ConnClose? || e.ConnError? || e.IdleFires?) && IsCurrent(m, e.id) && m.ready[e.id].receivedGoAway then {e.id}
    else {}
  }

  /** The connections that were retired by their own close in a run. */
  function Lingering(m: Manager, events: seq<Event>, idleTimeoutMs: nat): set<nat>
    requires Legal(m, events, idleTimeoutMs)
    decreases |events|
  {
    if events == [] then {}
    else RetiredByClosing(m, events[0]) + Lingering(Step(m, events[0], idleTimeoutMs), events[1..], idleTimeoutMs)
  }

  /** The manager listens to a connection in its list exactly if it is none of the `closed`; and to the current
      connection, if that received GOAWAY. */
  ghost predicate Retires(m: Manager, closed: set<nat>) {
    && (forall id :: id in closed ==> id < |m.ready| && m.ready[id].receivedGoAway && !IsCurrent(m, id))
    && (forall id :: id in m.shuttingDown ==> id < |m.ready| && (m.ready[id].listening <==> id !in closed))
    && (m.s.IsReady? && m.s.id < |m.ready| && m.ready[m.s.id].receivedGoAway ==> m.ready[m.s.id].listening)
  }

  /** Changing the state adds the ready state that is left, if it received GOAWAY, and nothing else. */
  lemma SetStateRetires(m: Manager, target: Target, id: nat)
    requires Inv(m) && id < |m.ready|
    ensures
      var m' := SetState(m, target);
      && |m'.ready| == |m.ready| && m'.ready[id].receivedGoAway == m.ready[id].receivedGoAway
      && (id in m'.shuttingDown <==> id in m.shuttingDown || (IsCurrent(m, id) && m.ready[id].receivedGoAway))
      && (m.ready[id].receivedGoAway ==> m'.ready[id].listening == m.ready[id].listening)
  {
    LeaveRetires(m, id);
    EnterRetires(Leave(m), target, id);
  }

  lemma LeaveRetires(m: Manager, id: nat)
    requires Inv(m) && id < |m.ready|
    ensures
      var m' := Leave(m);
      && |m'.ready| == |m.ready| && m'.ready[id].receivedGoAway == m.ready[id].receivedGoAway
      && (id in m'.shuttingDown <==> id in m.shuttingDown || (IsCurrent(m, id) && m.ready[id].receivedGoAway))
      && (m.ready[id].receivedGoAway ==> m'.ready[id].listening == m.ready[id].listening)
  {
  }

  lemma EnterRetires(m: Manager, target: Target, id: nat)
    requires id < |m.ready|
    ensures
      var m' := Enter(m, target);
      && |m'.ready| == |m.ready| && m'.shuttingDown == m.shuttingDown
      && m'.ready[id].receivedGoAway == m.ready[id].receivedGoAway && m'.ready[id].listening == m.ready[id].listening
  {
  }

  /** What one event may do to a ready state that received GOAWAY, and to its place in the list. */
  ghost predicate RetiresOne(m: Manager, e: Event, m': Manager, id: nat)
    requires id < |m.ready| && Enabled(m, e)
  {
    && id < |m'.ready|
    && (m.ready[id].receivedGoAway ==> m'.ready[id].receivedGoAway)
    && (id in m'.shuttingDown ==> id in m.shuttingDown || (IsCurrent(m, id) && m.ready[id].receivedGoAway))
    && (id in m'.shuttingDown ==>
          m'.ready[id].listening == (m.ready[id].listening && id !in RetiredByClosing(m, e)))
  }

  lemma MovedRetires(m: Manager, m1: Manager, target: Target, e: Event, id: nat)
    requires Inv(m) && Inv(m1) && id < |m.ready| && Enabled(m, e) && RetiredByClosing(m, e) == {}
    requires m1.s == m.s && m1.shuttingDown == m.shuttingDown && |m1.ready| >= |m.ready|
    requires m1.ready[id].receivedGoAway == m.ready[id].receivedGoAway && m1.ready[id].listening == m.ready[id].listening
    ensures RetiresOne(m, e, SetState(m1, target), id)
  {
    SetStateRetires(m1, target, id);
    assert Consistent(m, id);
  }

  lemma PromiseStepRetires(m: Manager, e: Event, id: nat, idleTimeoutMs: nat)
    requires Inv(m) && Enabled(m, e) && id < |m.ready|
    requires e.Connected? || e.ConnectFailed? || e.Verified? || e.VerifyReconnects? || e.VerifyFailed?
    ensures RetiresOne(m, e, Step(m, e, idleTimeoutMs), id)
  {
    var m1 := Settled(m, e.promise);
    SettledKeeps(m, e.promise);
    match e
    case Connected(p, sessionOpen) =>
      if sessionOpen {
        WithConnection(m, p, idleTimeoutMs);
        MovedRetires(m, m1.(ready := m.ready + [NewReady(idleTimeoutMs)]), ToReady(|m.ready|), e, id);
      }
    case ConnectFailed(_, canceled) => MovedRetires(m, m1, ClosedOrError(canceled), e, id);
    case Verified(p) => MovedRetires(m, m1, ToReady(m.pending[p].id), e, id);
    case VerifyReconnects(_) => MovedRetires(m, m1, ToConnecting, e, id);
    case VerifyFailed(_, canceled) => MovedRetires(m, m1, ClosedOrError(canceled), e, id);
  }

  lemma CallRetires(m: Manager, e: Event, id: nat, idleTimeoutMs: nat)
    requires Inv(m) && Enabled(m, e) && id < |m.ready| && (e.GotoReady? || e.Abort?)
    ensures RetiresOne(m, e, Step(m, e, idleTimeoutMs), id)
  {
    if e.Abort? {
      DestroyKeeps(m);
      MovedRetires(m, Destroy(m), ClosedOrError(e.canceled), e, id);
    } else {
      MovedRetires(m, m, ToConnecting, e, id);
      if m.s.IsReady? {
        MovedRetires(m, m, ToVerifying(m.s.id), e, id);
      }
    }
  }

  lemma InvokeRetires(m: Manager, closing: nat, handler: Handler, target: Target, id: nat)
    requires Inv(m) && id < |m.ready| && (id == closing && id in m.shuttingDown ==> handler.Removes?)
    ensures
      var m' := Invoke(m, closing, handler, target);
      && |m'.ready| == |m.ready| && m'.ready[id].receivedGoAway == m.ready[id].receivedGoAway
      && (id in m'.shuttingDown ==>
            (id in m.shuttingDown && id != closing)
            || (handler.ChangesState? && IsCurrent(m, id) && m.ready[id].receivedGoAway))
      && (m.ready[id].receivedGoAway ==> m'.ready[id].listening == m.ready[id].listening)
  {
    assert Consistent(m, id);
    match handler
    case Unset =>
    case ChangesState => SetStateRetires(m, target, id);
    case Removes => RemoveFirstIs(m.shuttingDown, closing);
  }

  lemma ClosedRetires(m: Manager, e: Event, r: Ready, target: Target, id: nat)
    requires Inv(m) && Enabled(m, e) && id < |m.ready| && (e.ConnClose? || e.ConnError? || e.IdleFires?)
    requires Inv(Update(m, e.id, r)) && !r.listening && r.receivedGoAway == m.ready[e.id].receivedGoAway
    requires r.onClose == m.ready[e.id].onClose
    ensures
      var m' := Invoke(Update(m, e.id, r), e.id, r.onClose, target);
      RetiresOne(m, e, m', id) && (id == e.id && !IsCurrent(m, id) ==> id !in m'.shuttingDown)
  {
    assert Consistent(m, e.id) && Consistent(m, id);
    InvokeRetires(Update(m, e.id, r), e.id, r.onClose, target, id);
  }

  /** A connection closes: it leaves the list if it is in it, and enters it, cleaned up, if it is current and
      received GOAWAY. */
  lemma ClosingRetires(m: Manager, e: Event, id: nat, idleTimeoutMs: nat)
    requires Inv(m) && Enabled(m, e) && id < |m.ready| && (e.ConnClose? || e.ConnError? || e.IdleFires?)
    ensures RetiresOne(m, e, Step(m, e, idleTimeoutMs), id)
    ensures id == e.id && !IsCurrent(m, id) ==> id !in Step(m, e, idleTimeoutMs).shuttingDown
  {
    var was := m.ready[e.id];
    assert Consistent(m, e.id);
    if e.IdleFires? {
      RetiringAccounts(was, e.timer);
      UpdateKeeps(m, e.id, IdleTimeout(was, e.timer));
      ClosedRetires(m, e, IdleTimeout(was, e.timer), ToClosed, id);
    } else {
      ClosedConnectionKeeps(m, e.id);
      var target := if e.ConnClose? then ToClosed else ClosedOrError(e.canceled);
      ClosedRetires(m, e, Cleanup(was).(connClosed := true), target, id);
    }
  }

  lemma OneRetires(m: Manager, e: Event, id: nat, idleTimeoutMs: nat)
    requires Inv(m) && Enabled(m, e) && id < |m.ready|
    ensures RetiresOne(m, e, Step(m, e, idleTimeoutMs), id)
  {
    if e.GotoReady? || e.Abort? {
      CallRetires(m, e, id, idleTimeoutMs);
    } else if e.ConnClose? || e.ConnError? || e.IdleFires? {
      ClosingRetires(m, e, id, idleTimeoutMs);
    } else if e.Register? || e.StreamClose? || e.GoAway? || e.ConnDies? {
    } else {
      PromiseStepRetires(m, e, id, idleTimeoutMs);
    }
  }

  /** GOAWAY is received only by a connection that the manager listens to. */
  lemma CurrentGoAway(m: Manager, e: Event, id: nat, idleTimeoutMs: nat)
    requires Inv(m) && Enabled(m, e) && IsCurrent(Step(m, e, idleTimeoutMs), id)
    requires IsCurrent(m, id) && m.ready[id].receivedGoAway ==> m.ready[id].listening
    ensures
      var m' := Step(m, e, idleTimeoutMs);
      id < |m'.ready| && (m'.ready[id].receivedGoAway ==> m'.ready[id].listening)
  {
    StepKeeps(m, e, idleTimeoutMs);
    CurrentAfter(m, e, id, idleTimeoutMs);
    CurrentMarks(m, e, id, idleTimeoutMs);
  }

  lemma CurrentMarks(m: Manager, e: Event, id: nat, idleTimeoutMs: nat)
    requires Inv(m) && Enabled(m, e) && IsCurrent(Step(m, e, idleTimeoutMs), id)
    requires id < |Step(m, e, idleTimeoutMs).ready|
    ensures Step(m, e, idleTimeoutMs).ready[id].receivedGoAway ==>
      IsCurrent(m, id) && (m.ready[id].receivedGoAway || (e == GoAway(id) && m.ready[id].listening))
  {
    if e.Verified? {
      assert Verifiable(m, e.promise);
    }
    if e.ConnClose? || e.ConnError? || e.IdleFires? {
      ClosingMarks(m, e, id, idleTimeoutMs);
    }
  }

  lemma ClosingMarks(m: Manager, e: Event, id: nat, idleTimeoutMs: nat)
    requires Inv(m) && Enabled(m, e) && (e.ConnClose? || e.ConnError? || e.IdleFires?)
    requires IsCurrent(Step(m, e, idleTimeoutMs), id)
    ensures IsCurrent(m, id) && id < |m.ready| && id < |Step(m, e, idleTimeoutMs).ready|
    ensures Step(m, e, idleTimeoutMs).ready[id].receivedGoAway == m.ready[id].receivedGoAway
  {
    assert Consistent(m, e.id);
    ClosingIsRecorded(m, e, m.s.id, idleTimeoutMs);
  }

  lemma StepRetires(m: Manager, e: Event, closed: set<nat>, idleTimeoutMs: nat)
    requires Inv(m) && Retires(m, closed) && Enabled(m, e)
    ensures Retires(Step(m, e, idleTimeoutMs), closed + RetiredByClosing(m, e))
  {
    var m' := Step(m, e, idleTimeoutMs);
    StepKeeps(m, e, idleTimeoutMs);
    forall id | id in closed + RetiredByClosing(m, e)
      ensures id < |m'.ready| && m'.ready[id].receivedGoAway && !IsCurrent(m', id)
    {
      OneRetires(m, e, id, idleTimeoutMs);
      if IsCurrent(m', id) {
        CurrentMarks(m, e, id, idleTimeoutMs);
        ClosingLeaves(m, e, idleTimeoutMs);
      }
    }
    forall id | id in m'.shuttingDown
      ensures id < |m'.ready| && (m'.ready[id].listening <==> id !in closed + RetiredByClosing(m, e))
    {
      ListedIsKnown(m, e, id, idleTimeoutMs);
      OneRetires(m, e, id, idleTimeoutMs);
    }
    if m'.s.IsReady? {
      CurrentGoAway(m, e, m'.s.id, idleTimeoutMs);
    }
  }

  /** A ready state that enters the list existed before. */
  lemma ListedIsKnown(m: Manager, e: Event, id: nat, idleTimeoutMs: nat)
    requires Inv(m) && Enabled(m, e) && id in Step(m, e, idleTimeoutMs).shuttingDown
    ensures id < |m.ready|
  {
    var m' := Step(m, e, idleTimeoutMs);
    StepKeeps(m, e, idleTimeoutMs);
    ReadyGrows(m, e, idleTimeoutMs);
    assert Consistent(m', id);
    if e.Connected? && e.sessionOpen {
      ConnectedMoves(m, e.promise, idleTimeoutMs);
    }
  }

  lemma {:induction false} RunRetires(m: Manager, events: seq<Event>, closed: set<nat>, idleTimeoutMs: nat)
    requires Inv(m) && Retires(m, closed) && Legal(m, events, idleTimeoutMs)
    ensures Retires(Run(m, events, idleTimeoutMs), closed + Lingering(m, events, idleTimeoutMs))
    decreases |events|
  {
    if events == [] {
      assert closed + Lingering(m, events, idleTimeoutMs) == closed;
    } else {
      var e, rest := events[0], events[1..];
      var m' := Step(m, e, idleTimeoutMs);
      StepKeeps(m, e, idleTimeoutMs);
      StepRetires(m, e, closed, idleTimeoutMs);
      RunRetires(m', rest, closed + RetiredByClosing(m, e), idleTimeoutMs);
      assert closed + RetiredByClosing(m, e) + Lingering(m', rest, idleTimeoutMs)
        == closed + Lingering(m, events, idleTimeoutMs);
    }
  }

  /** A connection that received GOAWAY is in the list as soon as it is no longer current, and no other enters it. */
  lemma RetiredIsListed(events: seq<Event>, e: Event, id: nat, idleTimeoutMs: nat)
    requires Legal(InitialManager(), events, idleTimeoutMs)
    requires Enabled(Run(InitialManager(), events, idleTimeoutMs), e)
    requires id !in Run(InitialManager(), events, idleTimeoutMs).shuttingDown
    ensures
      var m := Run(InitialManager(), events, idleTimeoutMs);
      var m' := Step(m, e, idleTimeoutMs);
      id in m'.shuttingDown <==> IsCurrent(m, id) && id < |m.ready| && m.ready[id].receivedGoAway && !IsCurrent(m', id)
  {
    RunKeeps(InitialManager(), events, idleTimeoutMs);
    var m := Run(InitialManager(), events, idleTimeoutMs);
    StepKeeps(m, e, idleTimeoutMs);
    if id in Step(m, e, idleTimeoutMs).shuttingDown {
      ListedIsKnown(m, e, id, idleTimeoutMs);
      OneRetires(m, e, id, idleTimeoutMs);
      assert Consistent(Step(m, e, idleTimeoutMs), id);
    }
    if IsCurrent(m, id) && m.ready[id].receivedGoAway {
      LeavingLists(m, e, id, idleTimeoutMs);
    }
  }

  lemma LeavingLists(m: Manager, e: Event, id: nat, idleTimeoutMs: nat)
    requires Inv(m) && Enabled(m, e) && IsCurrent(m, id) && id < |m.ready| && m.ready[id].receivedGoAway
    ensures IsCurrent(Step(m, e, idleTimeoutMs), id) || id in Step(m, e, idleTimeoutMs).shuttingDown
  {
    assert Consistent(m, id);
  }

  /** A retired connection leaves the list when it closes if and only if it was not its own close that retired it. */
  lemma RetiredLeaves(events: seq<Event>, id: nat, idleTimeoutMs: nat)
    requires Legal(InitialManager(), events, idleTimeoutMs)
    requires id in Run(InitialManager(), events, idleTimeoutMs).shuttingDown
    ensures
      var m := Run(InitialManager(), events, idleTimeoutMs);
      && id < |m.ready| && Enabled(m, CloseOf(m, id))
      && (id !in Step(m, CloseOf(m, id), idleTimeoutMs).shuttingDown
          <==> id !in Lingering(InitialManager(), events, idleTimeoutMs))
  {
    RunKeeps(InitialManager(), events, idleTimeoutMs);
    RunRetires(InitialManager(), events, {}, idleTimeoutMs);
    var m, lingering := Run(InitialManager(), events, idleTimeoutMs), Lingering(InitialManager(), events, idleTimeoutMs);
    assert {} + lingering == lingering;
    assert Consistent(m, id);
    if m.ready[id].listening {
      ClosingRetires(m, ConnClose(id), id, idleTimeoutMs);
    }
  }

  /** Otherwise it stays for ever: no event takes it off, or makes the manager listen, but an idle timeout of its own. */
  lemma LingeringStays(m: Manager, e: Event, id: nat, idleTimeoutMs: nat)
    requires Inv(m) && Enabled(m, e) && id in m.shuttingDown && id < |m.ready| && !m.ready[id].listening
    requires !(e.IdleFires? && e.id == id)
    ensures
      var m' := Step(m, e, idleTimeoutMs);
      id in m'.shuttingDown && id < |m'.ready| && !m'.ready[id].listening
  {
    assert Consistent(m, id);
    OneRetires(m, e, id, idleTimeoutMs);
    ListedStays(m, e, id, idleTimeoutMs);
  }

  lemma ListedStays(m: Manager, e: Event, id: nat, idleTimeoutMs: nat)
    requires Inv(m) && Enabled(m, e) && id in m.shuttingDown
    requires !((e.ConnClose? || e.ConnError? || e.IdleFires?) && e.id == id)
    ensures id in Step(m, e, idleTimeoutMs).shuttingDown
  {
    if e.ConnClose? || e.ConnError? || e.IdleFires? {
      RemoveFirstIs(m.shuttingDown, e.id);
    }
  }

  /** It does happen: the current connection receives GOAWAY and closes. It is cleaned up first, and listed then. */
  lemma RetiredLingers(idleTimeoutMs: nat)
    ensures
      var events := [GotoReady(false)] + ([Connected(0, true)] + [GoAway(0), ConnClose(0)]);
      && Legal(InitialManager(), events, idleTimeoutMs)
      && var m := Run(InitialManager(), events, idleTimeoutMs);
         && m.s == Closed && m.shuttingDown == [0] && |m.ready| == 1
         && m.ready[0].connClosed && !m.ready[0].listening && m.ready[0].timers == {}
  {
    ClosesAfterGoAway(FirstReady(idleTimeoutMs), idleTimeoutMs);
    FirstConnection([GoAway(0), ConnClose(0)], idleTimeoutMs);
  }

  lemma ClosesAfterGoAway(m: Manager, idleTimeoutMs: nat)
    requires m == FirstReady(idleTimeoutMs)
    ensures Legal(m, [GoAway(0), ConnClose(0)], idleTimeoutMs)
    ensures
      var m' := Run(m, [GoAway(0), ConnClose(0)], idleTimeoutMs);
      && m'.s == Closed && m'.shuttingDown == [0] && |m'.ready| == 1
      && m'.ready[0].connClosed && !m'.ready[0].listening && m'.ready[0].timers == {}
  {
    var m1 := Step(m, GoAway(0), idleTimeoutMs);
    CleanupStopsTimer(m1.ready[0]);
    RunCons(m1, ConnClose(0), [], idleTimeoutMs);
    RunCons(m, GoAway(0), [ConnClose(0)], idleTimeoutMs);
  }

  // ---- the idle timer ----------------------------------------------------

  /** The ready states whose idle timer an event takes away: the one that is left, unless it received GOAWAY, and
      one whose connection closes, fails, or times out. */
  function Silenced(m: Manager, e: Event, idleTimeoutMs: nat): set<nat>
    requires Enabled(m, e)
  {
    (if m.s.IsReady? && m.s.id < |m.ready| && !m.ready[m.s.id].receivedGoAway && Step(m, e, idleTimeoutMs).s != m.s
     then {m.s.id} else {})
    + (if e.ConnClose? || e.ConnError? || e.IdleFires? then {e.id} else {})
  }

  function Restarted(e: Event): set<nat> {
    if e.StreamClose? then {e.id} else {}
  }

  /** The ready states whose idle timer was taken away in a run, and of which no stream has closed since. */
  function Untimed(m: Manager, events: seq<Event>, untimed: set<nat>, idleTimeoutMs: nat): set<nat>
    requires Legal(m, events, idleTimeoutMs)
    decreases |events|
  {
    if events == [] then untimed
    else Untimed(Step(m, events[0], idleTimeoutMs), events[1..],
      untimed + Silenced(m, events[0], idleTimeoutMs) - Restarted(events[0]), idleTimeoutMs)
  }

  ghost predicate TimerOf(r: Ready, untimed: bool) {
    r.openStreams == {} ==> (r.timers == {} <==> untimed)
  }

  /** Without open streams, an idle timer is outstanding for all ready states but the `untimed`. */
  ghost predicate Timed(m: Manager, untimed: set<nat>) {
    && (forall id :: id in untimed ==> id < |m.ready|)
    && forall id :: 0 <= id < |m.ready| ==> TimerOf(m.ready[id], id in untimed)
  }

  lemma CleanupStopsTimer(r: Ready)
    requires Accounts(r)
    ensures StopIdleTimeout(r).timers == {}
  {
  }

  lemma LeaveTimes(m: Manager, id: nat)
    requires id < |m.ready| && Accounts(m.ready[id])
    ensures
      var r, m' := m.ready[id], Leave(m);
      && |m'.ready| == |m.ready| && m'.ready[id].openStreams == r.openStreams
      && m'.ready[id].timers == if IsCurrent(m, id) && !r.receivedGoAway then {} else r.timers
  {
    CleanupStopsTimer(m.ready[id]);
  }

  lemma EnterTimes(m: Manager, target: Target, id: nat)
    requires id < |m.ready|
    ensures
      var r, m' := m.ready[id], Enter(m, target);
      && |m'.ready| == |m.ready| && m'.ready[id].openStreams == r.openStreams && m'.ready[id].timers == r.timers
  {
  }

  /** A change of state takes the idle timer away from the ready state that is left without GOAWAY, and from no other. */
  lemma SetStateTimes(m: Manager, target: Target, id: nat)
    requires Inv(m) && id < |m.ready|
    ensures
      var r, m' := m.ready[id], SetState(m, target);
      && |m'.ready| == |m.ready| && m'.ready[id].openStreams == r.openStreams
      && m'.ready[id].timers == if IsCurrent(m, id) && !r.receivedGoAway then {} else r.timers
  {
    assert Consistent(m, id);
    LeaveTimes(m, id);
    EnterTimes(Leave(m), target, id);
  }

  /** The state after an event is another one if the event asks for a change. */
  lemma SetStateMoves(m: Manager, target: Target)
    requires Inv(m) && m.s.IsReady? && (target.ToReady? ==> target.id != m.s.id && target.id < |m.ready|)
    ensures SetState(m, target).s != m.s
  {
  }

  lemma ConnectedStepTimes(m: Manager, e: Event, id: nat, untimed: set<nat>, idleTimeoutMs: nat)
    requires Inv(m) && Timed(m, untimed) && Enabled(m, e) && e.Connected? && idleTimeoutMs <= MAX_TIMEOUT
    requires id < |Step(m, e, idleTimeoutMs).ready|
    ensures TimerOf(Step(m, e, idleTimeoutMs).ready[id], id in untimed + Silenced(m, e, idleTimeoutMs))
  {
    if e.sessionOpen {
      SettledKeeps(m, e.promise);
      ConnectedTimes(m, Settled(m, e.promise), id, untimed, idleTimeoutMs);
      ConnectedMoves(m, e.promise, idleTimeoutMs);
    } else {
      assert TimerOf(m.ready[id], id in untimed);
    }
  }

  lemma FailedStepTimes(m: Manager, e: Event, id: nat, untimed: set<nat>, idleTimeoutMs: nat)
    requires Inv(m) && Timed(m, untimed) && Enabled(m, e) && (e.ConnectFailed? || e.VerifyReconnects? || e.VerifyFailed?)
    requires id < |Step(m, e, idleTimeoutMs).ready|
    ensures TimerOf(Step(m, e, idleTimeoutMs).ready[id], id in untimed + Silenced(m, e, idleTimeoutMs))
  {
    SettledKeeps(m, e.promise);
    var target := if e.VerifyReconnects? then ToConnecting else ClosedOrError(e.canceled);
    MovedTimes(m, Settled(m, e.promise), target, id, untimed);
  }

  lemma VerifiedStepTimes(m: Manager, e: Event, id: nat, untimed: set<nat>, idleTimeoutMs: nat)
    requires Inv(m) && Timed(m, untimed) && Enabled(m, e) && e.Verified?
    requires id < |Step(m, e, idleTimeoutMs).ready|
    ensures TimerOf(Step(m, e, idleTimeoutMs).ready[id], id in untimed + Silenced(m, e, idleTimeoutMs))
  {
    assert Verifiable(m, e.promise);
    SettledKeeps(m, e.promise);
    MovedTimes(m, Settled(m, e.promise), ToReady(m.pending[e.promise].id), id, untimed);
  }

  lemma PromiseStepTimes(m: Manager, e: Event, id: nat, untimed: set<nat>, idleTimeoutMs: nat)
    requires Inv(m) && Timed(m, untimed) && Enabled(m, e) && idleTimeoutMs <= MAX_TIMEOUT
    requires e.Connected? || e.ConnectFailed? || e.Verified? || e.VerifyReconnects? || e.VerifyFailed?
    requires id < |Step(m, e, idleTimeoutMs).ready|
    ensures TimerOf(Step(m, e, idleTimeoutMs).ready[id], id in untimed + Silenced(m, e, idleTimeoutMs))
  {
    if e.Connected? {
      ConnectedStepTimes(m, e, id, untimed, idleTimeoutMs);
    } else if e.Verified? {
      VerifiedStepTimes(m, e, id, untimed, idleTimeoutMs);
    } else {
      FailedStepTimes(m, e, id, untimed, idleTimeoutMs);
    }
  }

  /** What becomes of the idle timers when the state is changed: `m1` is the manager right before. */
  lemma MovedTimes(m: Manager, m1: Manager, target: Target, id: nat, untimed: set<nat>)
    requires Timed(m, untimed) && Inv(m1) && m1.s == m.s && |m1.ready| == |m.ready|
    requires id < |SetState(m1, target).ready| && (target.ToReady? ==> !IsCurrent(m, target.id) && target.id < |m.ready|)
    requires forall i :: 0 <= i < |m.ready| ==> m1.ready[i] == m.ready[i] || m1.ready[i] == m.ready[i].(connClosed := true)
    ensures
      var left := if m.s.IsReady? && m.s.id < |m.ready| && !m.ready[m.s.id].receivedGoAway then {m.s.id} else {};
      TimerOf(SetState(m1, target).ready[id], id in untimed + left)
    ensures m.s.IsReady? ==> SetState(m1, target).s != m.s
  {
    if m.s.IsReady? {
      SetStateMoves(m1, target);
    }
    if id < |m.ready| {
      SetStateTimes(m1, target, id);
      assert TimerOf(m.ready[id], id in untimed);
    }
  }

  lemma ConnectedMoves(m: Manager, p: nat, idleTimeoutMs: nat)
    requires Inv(m) && Awaits(m, p, false)
    ensures Step(m, Connected(p, true), idleTimeoutMs).s == IsReady(|m.ready|)
  {
  }

  lemma ConnectedTimes(m: Manager, m1: Manager, id: nat, untimed: set<nat>, idleTimeoutMs: nat)
    requires Inv(m) && Inv(m1) && Timed(m, untimed) && idleTimeoutMs <= MAX_TIMEOUT
    requires m1.s == m.s && m1.ready == m.ready && id <= |m.ready|
    ensures
      var m2 := m1.(ready := m.ready + [NewReady(idleTimeoutMs)]);
      var left := if m.s.IsReady? && m.s.id < |m.ready| && !m.ready[m.s.id].receivedGoAway then {m.s.id} else {};
      var m3 := SetState(m2, ToReady(|m.ready|));
      && |m3.ready| == |m.ready| + 1
      && TimerOf(m3.ready[id], id in untimed + left)
  {
    if id < |m.ready| {
      assert Consistent(m, id) && TimerOf(m.ready[id], id in untimed);
      CleanupStopsTimer(m.ready[id]);
    } else {
      assert id !in untimed;
    }
  }

  lemma StreamTimes(r: Ready, stream: nat, idleTimeoutMs: nat)
    requires Accounts(r) && idleTimeoutMs <= MAX_TIMEOUT
    ensures stream in r.openStreams ==> TimerOf(StreamClosed(r, stream, idleTimeoutMs), false)
    ensures RegisterRequest(r, stream).openStreams != {}
  {
    if stream in r.openStreams {
      StreamClosedAccounts(r, stream, idleTimeoutMs);
    }
    assert stream in RegisterRequest(r, stream).openStreams;
  }

  lemma StreamStepTimes(m: Manager, e: Event, id: nat, untimed: set<nat>, idleTimeoutMs: nat)
    requires Inv(m) && Timed(m, untimed) && Enabled(m, e) && idleTimeoutMs <= MAX_TIMEOUT && id < |m.ready|
    requires e.Register? || e.StreamClose? || e.GoAway? || e.ConnDies?
    ensures TimerOf(Step(m, e, idleTimeoutMs).ready[id], id in untimed - Restarted(e))
  {
    assert Consistent(m, id) && TimerOf(m.ready[id], id in untimed);
    var r, r' := m.ready[id], Step(m, e, idleTimeoutMs).ready[id];
    if e.id != id {
      assert r' == r;
    } else if e.Register? {
      StreamTimes(r, e.stream, idleTimeoutMs);
      assert r' == RegisterRequest(r, e.stream);
    } else if e.StreamClose? {
      StreamTimes(r, e.stream, idleTimeoutMs);
      assert r' == StreamClosed(r, e.stream, idleTimeoutMs);
    }
  }

  lemma InvokeTimes(m: Manager, closing: nat, handler: Handler, target: Target, id: nat)
    requires Inv(m) && id < |m.ready|
    ensures
      var r, m' := m.ready[id], Invoke(m, closing, handler, target);
      && |m'.ready| == |m.ready| && m'.ready[id].openStreams == r.openStreams
      && m'.ready[id].timers
           == if handler.ChangesState? && IsCurrent(m, id) && !r.receivedGoAway then {} else r.timers
  {
    SetStateTimes(m, target, id);
  }

  /** A closing connection is silenced itself, and so is the current one if that is what changes the state. */
  lemma ClosedTimes(m: Manager, closing: nat, r: Ready, handler: Handler, target: Target, id: nat, untimed: set<nat>)
    requires Inv(m) && Timed(m, untimed) && closing < |m.ready| && id < |m.ready| && Inv(Update(m, closing, r))
    requires r.timers == {} && r.openStreams == m.ready[closing].openStreams
    requires handler == m.ready[closing].onClose
    ensures
      var m' := Invoke(Update(m, closing, r), closing, handler, target);
      id < |m'.ready| && TimerOf(m'.ready[id], id in untimed + {closing})
  {
    assert Consistent(m, closing) && TimerOf(m.ready[id], id in untimed);
    InvokeTimes(Update(m, closing, r), closing, handler, target, id);
  }

  lemma SilencedByClosing(m: Manager, e: Event, id: nat, untimed: set<nat>, idleTimeoutMs: nat)
    requires Inv(m) && Enabled(m, e) && (e.ConnClose? || e.ConnError? || e.IdleFires?)
    ensures id in untimed + {e.id} <==> id in untimed + Silenced(m, e, idleTimeoutMs)
  {
    assert Consistent(m, e.id);
  }

  lemma CloseTimes(m: Manager, closing: nat, handler: Handler, target: Target, id: nat, untimed: set<nat>)
    requires Inv(m) && Timed(m, untimed) && id < |m.ready| && closing < |m.ready|
    requires handler == m.ready[closing].onClose
    ensures
      var m' := Invoke(Update(m, closing, Cleanup(m.ready[closing]).(connClosed := true)), closing, handler, target);
      id < |m'.ready| && TimerOf(m'.ready[id], id in untimed + {closing})
  {
    var was := m.ready[closing];
    assert Consistent(m, closing);
    CleanupStopsTimer(was);
    ClosedConnectionKeeps(m, closing);
    ClosedTimes(m, closing, Cleanup(was).(connClosed := true), handler, target, id, untimed);
  }

  lemma IdleTimeoutTimes(m: Manager, e: Event, id: nat, untimed: set<nat>, idleTimeoutMs: nat)
    requires Inv(m) && Timed(m, untimed) && Enabled(m, e) && id < |m.ready| && e.IdleFires?
    ensures id < |Step(m, e, idleTimeoutMs).ready|
    ensures TimerOf(Step(m, e, idleTimeoutMs).ready[id], id in untimed + {e.id})
  {
    var was := m.ready[e.id];
    assert Consistent(m, e.id);
    RetiringAccounts(was, e.timer);
    UpdateKeeps(m, e.id, IdleTimeout(was, e.timer));
    ClosedTimes(m, e.id, IdleTimeout(was, e.timer), was.onClose, ToClosed, id, untimed);
  }

  lemma ConnectionStepTimes(m: Manager, e: Event, id: nat, untimed: set<nat>, idleTimeoutMs: nat)
    requires Inv(m) && Timed(m, untimed) && Enabled(m, e) && id < |m.ready|
    requires e.ConnClose? || e.ConnError? || e.IdleFires?
    ensures id < |Step(m, e, idleTimeoutMs).ready|
    ensures TimerOf(Step(m, e, idleTimeoutMs).ready[id], id in untimed + Silenced(m, e, idleTimeoutMs))
  {
    SilencedByClosing(m, e, id, untimed, idleTimeoutMs);
    if e.IdleFires? {
      IdleTimeoutTimes(m, e, id, untimed, idleTimeoutMs);
    } else {
      assert Consistent(m, e.id);
      var target := if e.ConnClose? then ToClosed else ClosedOrError(e.canceled);
      CloseTimes(m, e.id, m.ready[e.id].onClose, target, id, untimed);
    }
  }

  lemma StepTimes(m: Manager, e: Event, id: nat, untimed: set<nat>, idleTimeoutMs: nat)
    requires Inv(m) && Timed(m, untimed) && Enabled(m, e) && idleTimeoutMs <= MAX_TIMEOUT
    requires id < |Step(m, e, idleTimeoutMs).ready|
    ensures TimerOf(Step(m, e, idleTimeoutMs).ready[id],
                    id in untimed + Silenced(m, e, idleTimeoutMs) - Restarted(e))
  {
    if e.GotoReady? {
      GotoReadyTimes(m, e.requiresVerify, id, untimed, idleTimeoutMs);
    } else if e.Abort? {
      AbortTimes(m, e, id, untimed, idleTimeoutMs);
    } else if e.Register? || e.StreamClose? || e.GoAway? || e.ConnDies? {
      StreamStepTimes(m, e, id, untimed, idleTimeoutMs);
    } else if e.ConnClose? || e.ConnError? || e.IdleFires? {
      ConnectionStepTimes(m, e, id, untimed, idleTimeoutMs);
    } else {
      PromiseStepTimes(m, e, id, untimed, idleTimeoutMs);
    }
  }

  lemma AbortTimes(m: Manager, e: Event, id: nat, untimed: set<nat>, idleTimeoutMs: nat)
    requires Inv(m) && Timed(m, untimed) && e.Abort? && id < |Step(m, e, idleTimeoutMs).ready|
    ensures TimerOf(Step(m, e, idleTimeoutMs).ready[id], id in untimed + Silenced(m, e, idleTimeoutMs))
  {
    DestroyKeeps(m);
    MovedTimes(m, Destroy(m), ClosedOrError(e.canceled), id, untimed);
  }

  lemma GotoReadyTimes(m: Manager, requiresVerify: bool, id: nat, untimed: set<nat>, idleTimeoutMs: nat)
    requires Inv(m) && Timed(m, untimed) && id < |GotoReadyStep(m, requiresVerify).ready|
    ensures TimerOf(GotoReadyStep(m, requiresVerify).ready[id],
                    id in untimed + Silenced(m, GotoReady(requiresVerify), idleTimeoutMs))
  {
    MovedTimes(m, m, ToConnecting, id, untimed);
    if m.s.IsReady? {
      MovedTimes(m, m, ToVerifying(m.s.id), id, untimed);
    }
    assert TimerOf(m.ready[id], id in untimed);
  }

  lemma {:induction false} RunTimes(m: Manager, events: seq<Event>, untimed: set<nat>, idleTimeoutMs: nat)
    requires Inv(m) && Timed(m, untimed) && Legal(m, events, idleTimeoutMs) && idleTimeoutMs <= MAX_TIMEOUT
    ensures Timed(Run(m, events, idleTimeoutMs), Untimed(m, events, untimed, idleTimeoutMs))
    decreases |events|
  {
    if events != [] {
      var m' := Step(m, events[0], idleTimeoutMs);
      StepKeeps(m, events[0], idleTimeoutMs);
      ReadyGrows(m, events[0], idleTimeoutMs);
      forall id | 0 <= id < |m'.ready|
        ensures TimerOf(m'.ready[id], id in untimed + Silenced(m, events[0], idleTimeoutMs) - Restarted(events[0]))
      {
        StepTimes(m, events[0], id, untimed, idleTimeoutMs);
      }
      RunTimes(m', events[1..], untimed + Silenced(m, events[0], idleTimeoutMs) - Restarted(events[0]), idleTimeoutMs);
    }
  }

  lemma StepUntimed(m: Manager, e: Event, untimed: set<nat>, deaf: set<nat>, idleTimeoutMs: nat)
    requires Inv(m) && Enabled(m, e)
    requires forall id :: id in untimed ==> id < |m.ready|
    requires m.s.IsReady? && m.s.id in untimed ==> m.s.id in deaf
    ensures
      var m' := Step(m, e, idleTimeoutMs);
      && (forall id :: id in untimed + Silenced(m, e, idleTimeoutMs) ==> id < |m'.ready|)
      && (m'.s.IsReady? && m'.s.id in untimed + Silenced(m, e, idleTimeoutMs) ==> m'.s.id in deaf + ReenteredBy(m, e))
  {
    var m' := Step(m, e, idleTimeoutMs);
    ReadyGrows(m, e, idleTimeoutMs);
    if m'.s.IsReady? {
      CurrentAfter(m, e, m'.s.id, idleTimeoutMs);
      if e.ConnClose? || e.ConnError? || e.IdleFires? {
        ClosingLeaves(m, e, idleTimeoutMs);
      }
    }
  }

  lemma ClosingLeaves(m: Manager, e: Event, idleTimeoutMs: nat)
    requires Inv(m) && Enabled(m, e) && (e.ConnClose? || e.ConnError? || e.IdleFires?)
    ensures !IsCurrent(Step(m, e, idleTimeoutMs), e.id)
  {
    assert Consistent(m, e.id);
  }

  /** The current ready state is untimed only if it was re-entered. */
  lemma {:induction false} UntimedIsDeaf(m: Manager, events: seq<Event>, untimed: set<nat>, deaf: set<nat>, idleTimeoutMs: nat)
    requires Inv(m) && Legal(m, events, idleTimeoutMs)
    requires forall id :: id in untimed ==> id < |m.ready|
    requires m.s.IsReady? && m.s.id in untimed ==> m.s.id in deaf
    ensures
      var m' := Run(m, events, idleTimeoutMs);
      m'.s.IsReady? && m'.s.id in Untimed(m, events, untimed, idleTimeoutMs) ==>
        m'.s.id in deaf + Reentered(m, events, idleTimeoutMs)
    decreases |events|
  {
    if events != [] {
      var e := events[0];
      StepKeeps(m, e, idleTimeoutMs);
      StepUntimed(m, e, untimed, deaf, idleTimeoutMs);
      UntimedIsDeaf(Step(m, e, idleTimeoutMs), events[1..], untimed + Silenced(m, e, idleTimeoutMs) - Restarted(e),
                    deaf + ReenteredBy(m, e), idleTimeoutMs);
    }
  }

  /** After any run, a connection without open streams has an idle timer outstanding if and only if no timer was
      taken from it since a stream of it last closed; and the current connection has one if it was never
      re-entered after a verification. */
  lemma IdleTimerOutstanding(events: seq<Event>, id: nat, idleTimeoutMs: nat)
    requires Legal(InitialManager(), events, idleTimeoutMs) && idleTimeoutMs <= MAX_TIMEOUT
    ensures
      var m := Run(InitialManager(), events, idleTimeoutMs);
      var untimed := Untimed(InitialManager(), events, {}, idleTimeoutMs);
      && (id < |m.ready| && m.ready[id].openStreams == {} ==> (m.ready[id].timers != {} <==> id !in untimed))
      && (IsCurrent(m, id) && id in untimed ==> id in Reentered(InitialManager(), events, idleTimeoutMs))
  {
    RunTimes(InitialManager(), events, {}, idleTimeoutMs);
    UntimedIsDeaf(InitialManager(), events, {}, {}, idleTimeoutMs);
    var m := Run(InitialManager(), events, idleTimeoutMs);
    if id < |m.ready| {
      assert TimerOf(m.ready[id], id in Untimed(InitialManager(), events, {}, idleTimeoutMs));
    }
  }

  ghost predicate NoTimers(m: Manager) {
    forall id :: 0 <= id < |m.ready| ==> m.ready[id].timers == {}
  }

  lemma SetStateAddsNoTimer(m: Manager, target: Target)
    requires NoTimers(m)
    ensures NoTimers(SetState(m, target))
  {
    assert NoTimers(Leave(m));
  }

  lemma InvokeAddsNoTimer(m: Manager, id: nat, handler: Handler, target: Target)
    requires NoTimers(m)
    ensures NoTimers(Invoke(m, id, handler, target))
  {
    if handler.ChangesState? {
      SetStateAddsNoTimer(m, target);
    }
  }

  lemma CallAddsNoTimer(m: Manager, e: Event, idleTimeoutMs: nat)
    requires NoTimers(m) && Enabled(m, e) && (e.GotoReady? || e.Abort?)
    ensures NoTimers(Step(m, e, idleTimeoutMs))
  {
    if e.Abort? {
      SetStateAddsNoTimer(Destroy(m), ClosedOrError(e.canceled));
    } else {
      SetStateAddsNoTimer(m, ToConnecting);
      if m.s.IsReady? {
        SetStateAddsNoTimer(m, ToVerifying(m.s.id));
      }
    }
  }

  lemma StepAddsNoTimer(m: Manager, e: Event, idleTimeoutMs: nat)
    requires NoTimers(m) && Enabled(m, e) && idleTimeoutMs > MAX_TIMEOUT
    ensures NoTimers(Step(m, e, idleTimeoutMs))
  {
    match e
    case GotoReady(_) => CallAddsNoTimer(m, e, idleTimeoutMs);
    case Abort(_) => CallAddsNoTimer(m, e, idleTimeoutMs);
    case Connected(p, _) =>
      var m1 := Settled(m, p).(ready := m.ready + [NewReady(idleTimeoutMs)]);
      assert NoTimers(m1);
      SetStateAddsNoTimer(m1, ToReady(|m.ready|));
    case ConnectFailed(p, canceled) => SetStateAddsNoTimer(Settled(m, p), ClosedOrError(canceled));
    case Verified(p) => SetStateAddsNoTimer(Settled(m, p), ToReady(m.pending[p].id));
    case VerifyReconnects(p) => SetStateAddsNoTimer(Settled(m, p), ToConnecting);
    case VerifyFailed(p, canceled) => SetStateAddsNoTimer(Settled(m, p), ClosedOrError(canceled));
    case ConnClose(id) =>
      InvokeAddsNoTimer(Update(m, id, Cleanup(m.ready[id]).(connClosed := true)), id, m.ready[id].onClose, ToClosed);
    case ConnError(id, canceled) =>
      InvokeAddsNoTimer(Update(m, id, Cleanup(m.ready[id]).(connClosed := true)), id, m.ready[id].onError, ClosedOrError(canceled));
    case IdleFires(_, _) => assert false;
    case _ =>
  }

  /** An idle timeout beyond what setTimeout takes, 2^31 - 1 milliseconds, never closes a connection. */
  lemma {:induction false} NeverTimesOut(m: Manager, events: seq<Event>, idleTimeoutMs: nat)
    requires NoTimers(m) && Legal(m, events, idleTimeoutMs) && idleTimeoutMs >= 0x8000_0000
    ensures NoTimers(Run(m, events, idleTimeoutMs)) && forall e :: e in events ==> !e.IdleFires?
    decreases |events|
  {
    if events != [] {
      StepAddsNoTimer(m, events[0], idleTimeoutMs);
      NeverTimesOut(Step(m, events[0], idleTimeoutMs), events[1..], idleTimeoutMs);
    }
  }

  // ---- the objects -------------------------------------------------------

  /** The closure ready(). */
  class ReadyConnection {
    const idleTimeoutMs: nat
    var streamCount: int
    var referenced: bool
    var idleTimeoutId: Option<nat>
    var timers: set<nat>
    var nextTimer: nat
    var receivedGoAway: bool
    var listening: bool
    var connClosed: bool
    var onClose: Handler
    var onError: Handler
    ghost var openStreams: set<nat>

    ghost function Current(): Ready
      reads this
    {
      Ready(streamCount, openStreams, referenced, idleTimeoutId, timers, nextTimer,
            receivedGoAway, listening, connClosed, onClose, onError)
    }

    constructor (idleTimeoutMs: nat)
      ensures this.idleTimeoutMs == idleTimeoutMs
      ensures Current() == NewReady(idleTimeoutMs) && Accounts(Current())
    {
      this.idleTimeoutMs := idleTimeoutMs;
      streamCount, openStreams, referenced := 0, {}, false;
      idleTimeoutId, timers, nextTimer := None, {}, 0;
      receivedGoAway, listening, connClosed := false, true, false;
      onClose, onError := Unset, Unset;
      new;
      StartIdleTimer();
    }

    method StartIdleTimer()
      modifies this`idleTimeoutId, this`timers, this`nextTimer
      ensures Current() == ResetIdleTimeout(old(Current()), idleTimeoutMs)
    {
      if idleTimeoutMs > MAX_TIMEOUT {
        idleTimeoutId := None;
        return;
      }
      idleTimeoutId := Some(nextTimer);
      timers := timers + {nextTimer};
      nextTimer := nextTimer + 1;
    }

    method StopIdleTimer()
      modifies this`timers
      ensures Current() == StopIdleTimeout(old(Current()))
    {
      if idleTimeoutId.Some? {
        timers := timers - {idleTimeoutId.value};
      }
    }

    method Open(ghost stream: nat)
      requires Accounts(Current()) && stream !in openStreams
      modifies this
      ensures Current() == RegisterRequest(old(Current()), stream) && Accounts(Current())
    {
      ghost var was := Current();
      openStreams := openStreams + {stream};
      streamCount := streamCount + 1;
      if streamCount == 1 {
        referenced := true;
        StopIdleTimer();
      }
      assert Current() == RegisterRequest(was, stream);
      RegisterAccounts(was, stream);
    }

    method Close(ghost stream: nat)
      requires Accounts(Current()) && stream in openStreams
      modifies this
      ensures Current() == StreamClosed(old(Current()), stream, idleTimeoutMs) && Accounts(Current())
    {
      StreamClosedAccounts(Current(), stream, idleTimeoutMs);
      openStreams := openStreams - {stream};
      streamCount := streamCount - 1;
      if streamCount == 0 {
        referenced := false;
        StartIdleTimer();
      }
    }

    /** The idle timer closes the connection; it finds no open stream. */
    method OnIdleTimeout(timer: nat)
      requires Accounts(Current()) && timer in timers
      modifies this
      ensures old(openStreams) == {} && connClosed
      ensures Current() == IdleTimeout(old(Current()), timer) && Accounts(Current())
    {
      RetiringAccounts(Current(), timer);
      timers := timers - {timer};
      connClosed := true;
      StopIdleTimer();
      listening := false;
    }
  }

  /** The manager. Its ready states are values at fixed positions of a list. */
  class Http2SessionManager {
    const idleTimeoutMs: nat
    var s: ManagerState
    var shuttingDown: seq<nat>
    var ready: seq<Ready>
    var pending: map<nat, Promised>
    var nextPromise: nat

    function Current(): Manager
      reads this
    {
      Manager(s, shuttingDown, ready, pending, nextPromise)
    }

    constructor (idleTimeoutMs: nat)
      ensures Current() == InitialManager() && Inv(Current()) && this.idleTimeoutMs == idleTimeoutMs
    {
      this.idleTimeoutMs := idleTimeoutMs;
      s, shuttingDown, ready, pending, nextPromise := Closed, [], [], map[], 0;
    }

    /** setState, with its two halves in the order of the code. */
    method ChangeState(target: Target)
      requires Inv(Current()) && Admissible(Leave(Current()), target)
      modifies this
      ensures Current() == SetState(old(Current()), target) && Inv(Current())
    {
      SetStateKeeps(Current(), target);
      if s.IsReady? {
        var id := s.id;
        ready := ready[id := OnExitState(ready[id])];
        if ready[id].receivedGoAway {
          ready := ready[id := ready[id].(onClose := Removes, onError := Removes)];
          shuttingDown := shuttingDown + [id];
        }
      }
      match target
      case ToConnecting =>
        pending, s, nextPromise := pending[nextPromise := Connection], Connecting(nextPromise), nextPromise + 1;
      case ToVerifying(id) =>
        pending, s, nextPromise := pending[nextPromise := Verification(id)], Verifying(nextPromise), nextPromise + 1;
      case ToReady(id) =>
        ready := ready[id := ready[id].(onClose := ChangesState, onError := ChangesState)];
        s := IsReady(id);
      case ToClosed => s := Closed;
      case ToError => s := Error;
    }

    /** The connection of a ready state closes: its own handler runs, whatever state is current. */
    method OnConnectionClose(id: nat)
      requires Inv(Current()) && Enabled(Current(), ConnClose(id))
      modifies this
      ensures Current() == Step(old(Current()), ConnClose(id), idleTimeoutMs) && Inv(Current())
      ensures !IsCurrent(old(Current()), id) ==> s == old(s)
    {
      assert Consistent(Current(), id);
      ClosedConnectionKeeps(Current(), id);
      LeaveKeeps(Update(Current(), id, Cleanup(ready[id]).(connClosed := true)));
      var handler := ready[id].onClose;
      ready := ready[id := Cleanup(ready[id]).(connClosed := true)];
      match handler
      case Unset =>
      case ChangesState => ChangeState(ToClosed);
      case Removes =>
        RemoveKeeps(Current(), id);
        RemoveShuttingDown(id);
    }

    /** Likewise when it fails; a cancelation counts as a close. */
    method OnConnectionError(id: nat, canceled: bool)
      requires Inv(Current()) && Enabled(Current(), ConnError(id, canceled))
      modifies this
      ensures Current() == Step(old(Current()), ConnError(id, canceled), idleTimeoutMs) && Inv(Current())
      ensures !IsCurrent(old(Current()), id) ==> s == old(s)
    {
      assert Consistent(Current(), id);
      ClosedConnectionKeeps(Current(), id);
      LeaveKeeps(Update(Current(), id, Cleanup(ready[id]).(connClosed := true)));
      var handler := ready[id].onError;
      ready := ready[id := Cleanup(ready[id]).(connClosed := true)];
      match handler
      case Unset =>
      case ChangesState => ChangeState(ClosedOrError(canceled));
      case Removes =>
        RemoveKeeps(Current(), id);
        RemoveShuttingDown(id);
    }

    /** The first half of gotoReady, up to the loop that awaits the new state. */
    method GoToReady(requiresVerify: bool)
      requires Inv(Current())
      modifies this
      ensures Current() == GotoReadyStep(old(Current()), requiresVerify) && Inv(Current())
      ensures s.IsReady? ==> !ready[s.id].receivedGoAway && !ready[s.id].connClosed && !requiresVerify
      ensures s != Closed && s != Error
    {
      GotoReadyKeeps(Current(), requiresVerify);
      LeaveKeeps(Current());
      if s.IsReady? {
        if ready[s.id].receivedGoAway || ready[s.id].connClosed {
          ChangeState(ToConnecting);
        } else if requiresVerify {
          assert forall p :: p in pending ==> Verifiable(Current(), p);
          ChangeState(ToVerifying(s.id));
        }
      } else if s.Closed? || s.Error? {
        ChangeState(ToConnecting);
      }
    }

    /** `indexOf`, and `splice` if it is not -1. */
    method RemoveShuttingDown(id: nat)
      modifies this`shuttingDown
      ensures shuttingDown == RemoveFirst(old(shuttingDown), id)
    {
      var i := 0;
      while i < |shuttingDown| && shuttingDown[i] != id
        invariant i <= |shuttingDown| && shuttingDown == old(shuttingDown)
        invariant RemoveFirst(shuttingDown, id) == shuttingDown[..i] + RemoveFirst(shuttingDown[i..], id)
      {
        assert shuttingDown[i..][1..] == shuttingDown[i + 1..];
        i := i + 1;
      }
      if i < |shuttingDown| {
        assert shuttingDown[i..][1..] == shuttingDown[i + 1..];
        shuttingDown := shuttingDown[..i] + shuttingDown[i + 1..];
      } else {
        assert shuttingDown[..i] + [] == shuttingDown;
      }
    }
  }
}
