/**
 The peering service (peering/peering.go): keeps connections to a set of peers, redialling with a randomised backoff.

 The service is a protocol of goroutines, timers and network events around two kinds of mutex. Every critical section is
 one atomic step of a state machine; which step comes next, what the network does and what the random generator draws is
 arbitrary.
 */
module Peering {
  import opened PeerHandlers

  // ---------------------------------------------------------------- the service

  type HandlerId = nat

  datatype ServiceState = Init | Running | Stopped

  /** A goroutine or a notification that has yet to run its next critical section. */
  datatype Task =
    | Starting(h: HandlerId)                  // go handler.startIfDisconnected()
    | Stopping(h: HandlerId)                  // go handler.stopIfConnected()
    | Reconnecting(h: HandlerId)              // reconnect, not yet at getAddrs
    | Dialling(h: HandlerId, addrs: Addrs)    // reconnect, inside Connect
    | DialFailed(h: HandlerId)                // reconnect, Connect returned an error
    | Dialled(h: HandlerId)                   // reconnect, Connect succeeded, before its stopIfConnected
    | Retrying(h: HandlerId)                  // reconnect, timeout extended, before its stopIfConnected
    | ConnectedEvent(p: PeerId)               // a Connected notification on its way
    | DisconnectedEvent(p: PeerId)            // a Disconnected notification on its way
    | StopSection                             // Stop, between StopNotify and its critical section

  /** `conns` counts open connections. */
  datatype State = State(
    service: ServiceState,
    subscribed: bool,
    peers: map<PeerId, HandlerId>,
    handlers: map<HandlerId, Handler>,
    conns: multiset<PeerId>,
    protected: set<PeerId>,
    tasks: multiset<Task>)

  const INITIAL: State := State(Init, false, map[], map[], multiset{}, {}, multiset{})

  datatype Action =
    | Start
    | StopNotify
    | AddPeer(p: PeerId, addrs: Addrs, id: HandlerId)
    | RemovePeer(p: PeerId)
    | OpenConn(p: PeerId)
    | CloseConn(p: PeerId)
    | Drop(t: Task)
    | Fire(h: HandlerId)
    | DialReturns(t: Task, ok: bool)
    | Run(t: Task, draw: Draw)

  predicate Connected(s: State, p: PeerId) { p in s.conns }

  predicate HasHandler(t: Task) { !t.ConnectedEvent? && !t.DisconnectedEvent? && !t.StopSection? }

  ghost predicate PeersLinked(s: State) {
    forall p :: p in s.peers ==> s.peers[p] in s.handlers && s.handlers[s.peers[p]].peer == p
  }

  /** Peers and tasks refer to handlers that exist. */
  ghost predicate Linked(s: State) {
    && PeersLinked(s)
    && (forall t :: t in s.tasks && HasHandler(t) ==> t.h in s.handlers)
  }

  ghost predicate Enabled(s: State, a: Action)
    requires Linked(s)
  {
    match a
    case Start => true
    case StopNotify => true
    case AddPeer(p, addrs, id) => id !in s.handlers
    case RemovePeer(p) => true
    case OpenConn(p) => true
    case CloseConn(p) => p in s.conns
    case Drop(t) => t in s.tasks && (t.ConnectedEvent? || t.DisconnectedEvent?) && !s.subscribed
    case Fire(h) => h in s.handlers && s.handlers[h].timer.Armed?
    case DialReturns(t, ok) => t in s.tasks && t.Dialling? && (ok ==> Connected(s, s.handlers[t.h].peer))
    case Run(t, draw) =>
      t in s.tasks && !t.Dialling? && (HasHandler(t) ==> ValidDraw(s.handlers[t.h].nextDelay, draw))
  }

  // What a step makes of each variable of the state. A variable that an action is not mentioned for stays as it is.

  function ServiceAfter(s: State, a: Action): ServiceState {
    if a.Start? && s.service == Init then Running
    else if a.Run? && a.t.StopSection? then Stopped
    else s.service
  }

  function SubscribedAfter(s: State, a: Action): bool {
    if a.Start? && s.service == Init then true
    else if a.StopNotify? then false
    else s.subscribed
  }

  function PeersAfter(s: State, a: Action): map<PeerId, HandlerId> {
    if a.AddPeer? && a.p !in s.peers then s.peers[a.p := a.id]
    else if a.RemovePeer? then s.peers - {a.p}
    else s.peers
  }

  function ProtectedAfter(s: State, a: Action): set<PeerId> {
    if a.AddPeer? && a.p !in s.peers then s.protected + {a.p}
    else if a.RemovePeer? && a.p in s.peers then s.protected - {a.p}
    else s.protected
  }

  function ConnsAfter(s: State, a: Action): multiset<PeerId> {
    if a.OpenConn? then s.conns + multiset{a.p}
    else if a.CloseConn? then s.conns - multiset{a.p}
    else s.conns
  }

  function HandlersOf(peers: map<PeerId, HandlerId>, ps: set<PeerId>): set<HandlerId>
    requires ps <= peers.Keys
  {
    set p | p in ps :: peers[p]
  }

  /** Handlers of the registered peers. */
  function Registered(s: State): set<HandlerId> { HandlersOf(s.peers, s.peers.Keys) }

  function StopAll(s: State): map<HandlerId, Handler> {
    map id | id in s.handlers :: if id in Registered(s) then StopHandler(s.handlers[id]) else s.handlers[id]
  }

  /** What one critical section of `t` makes of its handler. */
  function HandlerAfter(t: Task, h: Handler, connected: bool, draw: Draw): Handler
    requires HasHandler(t)
  {
    match t
    case Starting(_) => StartIfDisconnected(h, connected, draw)
    case Stopping(_) => StopIfConnected(h, connected)
    case Reconnecting(_) => h
    case Dialling(_, _) => h
    case DialFailed(_) => ExtendTimeout(h, draw)
    case Dialled(_) => StopIfConnected(h, connected)
    case Retrying(_) => StopIfConnected(h, connected)
  }

  function RanHandler(s: State, t: Task, draw: Draw): Handler
    requires HasHandler(t) && t.h in s.handlers
  {
    HandlerAfter(t, s.handlers[t.h], Connected(s, s.handlers[t.h].peer), draw)
  }

  function HandlersAfter(s: State, a: Action): map<HandlerId, Handler>
    requires PeersLinked(s)
    requires a.Run? && HasHandler(a.t) ==> a.t.h in s.handlers
  {
    match a
    case AddPeer(p, addrs, id) =>
      if p in s.peers then s.handlers[s.peers[p] := s.handlers[s.peers[p]].(addrs := addrs)]
      else s.handlers[id := NewHandler(p, addrs).(cancelled := s.service == Stopped)]
    case RemovePeer(p) =>
      if p in s.peers then s.handlers[s.peers[p] := StopHandler(s.handlers[s.peers[p]])] else s.handlers
    case Fire(id) => if id in s.handlers then s.handlers[id := s.handlers[id].(timer := Idle)] else s.handlers
    case Run(t, draw) =>
      if HasHandler(t) then s.handlers[t.h := RanHandler(s, t, draw)]
      else if t.StopSection? && s.service != Stopped then StopAll(s)
      else s.handlers
    case _ => s.handlers
  }

  /** The task whose turn the step is, if any. */
  function Consumed(a: Action): multiset<Task> {
    if a.Drop? || a.DialReturns? || a.Run? then multiset{a.t} else multiset{}
  }

  /** The critical section that comes next in the same goroutine. */
  function NextSection(t: Task, h: Handler): multiset<Task>
    requires HasHandler(t)
  {
    match t
    case Reconnecting(id) => multiset{Dialling(id, h.addrs)}
    case DialFailed(id) => multiset{Retrying(id)}
    case _ => multiset{}
  }

  /** The goroutines and notifications that the step sets off. */
  ghost function Produced(s: State, a: Action): multiset<Task>
    requires Linked(s) && Enabled(s, a)
  {
    match a
    case Start => if s.service == Init then multiset(set h | h in Registered(s) :: Starting(h)) else multiset{}
    case StopNotify => multiset{StopSection}
    case AddPeer(p, _, id) => if p !in s.peers && s.service == Running then multiset{Starting(id)} else multiset{}
    case RemovePeer(_) => multiset{}
    case OpenConn(p) => if s.subscribed then multiset{ConnectedEvent(p)} else multiset{}
    case CloseConn(p) => if s.subscribed then multiset{DisconnectedEvent(p)} else multiset{}
    case Drop(_) => multiset{}
    case Fire(h) => multiset{Reconnecting(h)}
    case DialReturns(t, ok) => multiset{if ok then Dialled(t.h) else DialFailed(t.h)}
    case Run(t, _) =>
      if HasHandler(t) then NextSection(t, s.handlers[t.h])
      else if t.StopSection? || t.p !in s.peers then multiset{}
      else multiset{if t.ConnectedEvent? then Stopping(s.peers[t.p]) else Starting(s.peers[t.p])}
  }

  ghost function Apply(s: State, a: Action): State
    requires Linked(s) && Enabled(s, a)
  {
    State(ServiceAfter(s, a), SubscribedAfter(s, a), PeersAfter(s, a), HandlersAfter(s, a), ConnsAfter(s, a),
          ProtectedAfter(s, a), s.tasks - Consumed(a) + Produced(s, a))
  }

  // ---------------------------------------------------------------- what every run keeps

  /** Delays and scheduled waits are within bounds. */
  ghost predicate DelaysBounded(s: State) {
    forall id :: id in s.handlers ==> ValidHandler(s.handlers[id])
  }

  /** The connection manager protects exactly the registered peers. */
  ghost predicate ProtectsPeers(s: State) { s.protected == s.peers.Keys }

  predicate IsRegistered(s: State, id: HandlerId)
    requires id in s.handlers
  {
    s.handlers[id].peer in s.peers && s.peers[s.handlers[id].peer] == id
  }

  /** A handler is cancelled exactly when it has been removed or the service has stopped. */
  ghost predicate CancelledRight(s: State) {
    forall id :: id in s.handlers ==>
      (s.handlers[id].cancelled <==> s.service == Stopped || !IsRegistered(s, id))
  }

  /** Someone looks after peer `p`. */
  ghost predicate Tended(s: State, p: PeerId)
    requires Linked(s) && p in s.peers
  {
    || Connected(s, p)
    || s.handlers[s.peers[p]].timer != Absent
    || Starting(s.peers[p]) in s.tasks
    || DisconnectedEvent(p) in s.tasks
  }

  ghost predicate AllTended(s: State)
    requires Linked(s)
  {
    s.service == Running && s.subscribed ==> forall p :: p in s.peers ==> Tended(s, p)
  }

  ghost predicate Invariant(s: State) {
    && Linked(s) && ProtectsPeers(s) && CancelledRight(s) && AllTended(s) && DelaysBounded(s)
  }

  lemma TaskKept(s: State, a: Action, t: Task)
    requires Linked(s) && Enabled(s, a)
    ensures t in s.tasks && t !in Consumed(a) ==> t in Apply(s, a).tasks
    ensures t in Produced(s, a) ==> t in Apply(s, a).tasks
    ensures t in Apply(s, a).tasks ==> t in s.tasks || t in Produced(s, a)
  {}

  lemma ProducedAreLinked(s: State, a: Action, t: Task)
    requires Linked(s) && Enabled(s, a) && t in Produced(s, a) && HasHandler(t)
    ensures t.h in HandlersAfter(s, a)
  {}

  /** What a step does to a handler, other than through a goroutine of that handler. */
  lemma HandlersFrame(s: State, a: Action, id: HandlerId)
    requires Linked(s) && Enabled(s, a) && !(a.Run? && HasHandler(a.t) && a.t.h == id)
    requires id in s.handlers
    ensures id in HandlersAfter(s, a)
    ensures var h, h' := s.handlers[id], HandlersAfter(s, a)[id];
            || h' == h
            || (h' == StopHandler(h) && (ServiceAfter(s, a) == Stopped || (a.RemovePeer? && h.peer == a.p)))
            || (a.AddPeer? && h' == h.(addrs := a.addrs))
            || (a == Fire(id) && h' == h.(timer := Idle))
  {}

  lemma NewHandlersFrame(s: State, a: Action, id: HandlerId)
    requires Linked(s) && Enabled(s, a) && id !in s.handlers && id in HandlersAfter(s, a)
    ensures a.AddPeer? && a.id == id && a.p !in s.peers
    ensures HandlersAfter(s, a)[id] == NewHandler(a.p, a.addrs).(cancelled := s.service == Stopped)
  {}

  lemma HandlerPeerKept(s: State, a: Action, id: HandlerId)
    requires Linked(s) && Enabled(s, a) && id in s.handlers
    ensures id in HandlersAfter(s, a) && HandlersAfter(s, a)[id].peer == s.handlers[id].peer
  {
    if !(a.Run? && HasHandler(a.t) && a.t.h == id) {
      HandlersFrame(s, a, id);
    }
  }

  lemma StepKeepsLinked(s: State, a: Action)
    requires Linked(s) && Enabled(s, a)
    ensures Linked(Apply(s, a))
  {
    var s' := Apply(s, a);
    forall p | p in s'.peers
      ensures s'.peers[p] in s'.handlers && s'.handlers[s'.peers[p]].peer == p
    {
      if p in s.peers {
        HandlerPeerKept(s, a, s.peers[p]);
      }
    }
    forall t | t in s'.tasks && HasHandler(t)
      ensures t.h in s'.handlers
    {
      TaskKept(s, a, t);
      if t in Produced(s, a) {
        ProducedAreLinked(s, a, t);
      } else {
        HandlerPeerKept(s, a, t.h);
      }
    }
  }

  lemma StepKeepsProtection(s: State, a: Action)
    requires Linked(s) && ProtectsPeers(s) && Enabled(s, a)
    ensures ProtectsPeers(Apply(s, a))
  {}

  lemma StepKeepsCancelled(s: State, a: Action)
    requires Linked(s) && CancelledRight(s) && Enabled(s, a)
    ensures CancelledRight(Apply(s, a))
  {
    var s' := Apply(s, a);
    forall id | id in s'.handlers
      ensures s'.handlers[id].cancelled <==> s'.service == Stopped || !IsRegistered(s', id)
    {
      if id !in s.handlers {
        NewHandlersFrame(s, a, id);
      } else {
        HandlerPeerKept(s, a, id);
        CancelledFrame(s, a, id);
      }
    }
  }

  lemma CancelledFrame(s: State, a: Action, id: HandlerId)
    requires Linked(s) && Enabled(s, a) && id in s.handlers && id in HandlersAfter(s, a)
    ensures HandlersAfter(s, a)[id].cancelled <==>
            || s.handlers[id].cancelled
            || (a.RemovePeer? && a.p in s.peers && s.peers[a.p] == id)
            || (a.Run? && a.t.StopSection? && s.service != Stopped && IsRegistered(s, id))
  {
    if a.Run? && a.t.StopSection? {
      assert IsRegistered(s, id) ==> id in Registered(s);
    }
  }

  lemma StepKeepsTended(s: State, a: Action)
    requires Linked(s) && AllTended(s) && Enabled(s, a) && Linked(Apply(s, a))
    ensures AllTended(Apply(s, a))
  {
    var s' := Apply(s, a);
    forall p | s'.service == Running && s'.subscribed && p in s'.peers
      ensures Tended(s', p)
    {
      if p !in s.peers {
        assert Starting(s'.peers[p]) in Produced(s, a);
        TaskKept(s, a, Starting(s'.peers[p]));
      } else if !(s.service == Running && s.subscribed) {
        assert s.peers[p] in Registered(s);
        assert Starting(s.peers[p]) in Produced(s, a);
        TaskKept(s, a, Starting(s.peers[p]));
      } else {
        StillTended(s, a, p);
      }
    }
  }

  /** How a peer passes from the care of one task to that of the next. */
  lemma StillTended(s: State, a: Action, p: PeerId)
    requires Linked(s) && Enabled(s, a) && Linked(Apply(s, a)) && s.service == Running && s.subscribed && p in s.peers
    requires ServiceAfter(s, a) == Running && SubscribedAfter(s, a) && p in PeersAfter(s, a)
    requires Tended(s, p)
    ensures Tended(Apply(s, a), p)
  {
    var id := s.peers[p];
    assert PeersAfter(s, a)[p] == id;
    if Connected(s, p) {
      ConnectionTended(s, a, p);
    } else if s.handlers[id].timer != Absent || (a.Run? && a.t == Starting(id)) {
      TimerTended(s, a, p);
    } else if Starting(id) in s.tasks {
      TaskKept(s, a, Starting(id));
    } else {
      EventTended(s, a, p);
    }
  }

  lemma ConnectionTended(s: State, a: Action, p: PeerId)
    requires Linked(s) && Enabled(s, a) && s.subscribed && Connected(s, p)
    ensures p in ConnsAfter(s, a) || DisconnectedEvent(p) in Apply(s, a).tasks
  {
    if a == CloseConn(p) {
      assert DisconnectedEvent(p) in Produced(s, a);
      TaskKept(s, a, DisconnectedEvent(p));
    }
  }

  lemma TimerTended(s: State, a: Action, p: PeerId)
    requires Linked(s) && Enabled(s, a) && p in s.peers && p in PeersAfter(s, a) && ServiceAfter(s, a) == Running
    requires !Connected(s, p) && (s.handlers[s.peers[p]].timer != Absent || (a.Run? && a.t == Starting(s.peers[p])))
    ensures s.peers[p] in HandlersAfter(s, a) && HandlersAfter(s, a)[s.peers[p]].timer != Absent
  {
    var id := s.peers[p];
    if !(a.Run? && HasHandler(a.t) && a.t.h == id) {
      HandlersFrame(s, a, id);
    }
  }

  lemma EventTended(s: State, a: Action, p: PeerId)
    requires Linked(s) && Enabled(s, a) && s.subscribed && p in s.peers && DisconnectedEvent(p) in s.tasks
    ensures DisconnectedEvent(p) in Apply(s, a).tasks || Starting(s.peers[p]) in Apply(s, a).tasks
  {
    if a.Run? && a.t == DisconnectedEvent(p) {
      assert Starting(s.peers[p]) in Produced(s, a);
      TaskKept(s, a, Starting(s.peers[p]));
    } else {
      TaskKept(s, a, DisconnectedEvent(p));
    }
  }

  lemma TaskKeepsDelay(t: Task, h: Handler, connected: bool, draw: Draw)
    requires HasHandler(t) && ValidHandler(h) && ValidDraw(h.nextDelay, draw)
    ensures ValidHandler(HandlerAfter(t, h, connected, draw))
  {
    RearmValid(h, draw);
  }

  lemma StepKeepsDelays(s: State, a: Action)
    requires Linked(s) && DelaysBounded(s) && Enabled(s, a)
    ensures DelaysBounded(Apply(s, a))
  {
    forall id | id in HandlersAfter(s, a)
      ensures ValidHandler(HandlersAfter(s, a)[id])
    {
      if a.Run? && HasHandler(a.t) && a.t.h == id {
        TaskKeepsDelay(a.t, s.handlers[id], Connected(s, s.handlers[id].peer), a.draw);
      } else if id in s.handlers {
        assert ValidHandler(s.handlers[id]);
        HandlersFrame(s, a, id);
      } else {
        NewHandlersFrame(s, a, id);
      }
    }
  }

  lemma StepKeepsInvariant(s: State, a: Action)
    requires Invariant(s) && Enabled(s, a)
    ensures Invariant(Apply(s, a))
  {
    StepKeepsLinked(s, a);
    StepKeepsProtection(s, a);
    StepKeepsCancelled(s, a);
    StepKeepsTended(s, a);
    StepKeepsDelays(s, a);
  }

  // ---------------------------------------------------------------- runs

  ghost predicate Takes(s: State, a: Action, s': State) { Linked(s) && Enabled(s, a) && s' == Apply(s, a) }

  /** The states that may come after `s` by action `a`: one, or none if the action is not enabled. */
  ghost function Successors(s: State, a: Action): iset<State> { iset s' | Takes(s, a, s') }

  ghost predicate StepOf(states: seq<State>, actions: seq<Action>, i: nat)
    requires i < |actions| < |states|
  {
    Takes(states[i], actions[i], states[i + 1])
  }

  /** A run: each state follows from the one before by an enabled action. */
  ghost predicate IsRun(states: seq<State>, actions: seq<Action>) {
    && |states| == |actions| + 1 && states[0] == INITIAL
    && forall i :: 0 <= i < |actions| ==> StepOf(states, actions, i)
  }

  lemma {:induction false} RunsKeepInvariant(states: seq<State>, actions: seq<Action>, i: nat)
    requires IsRun(states, actions) && i < |states|
    ensures Invariant(states[i])
    decreases i
  {
    if i > 0 {
      RunsKeepInvariant(states, actions, i - 1);
      assert StepOf(states, actions, i - 1);
      StepKeepsInvariant(states[i - 1], actions[i - 1]);
    }
  }

  ghost predicate ReachedBy(states: seq<State>, actions: seq<Action>, s: State) {
    IsRun(states, actions) && states[|actions|] == s
  }

  ghost predicate Reachable(s: State) { exists states, actions :: ReachedBy(states, actions, s) }

  lemma ReachNext(s: State, a: Action, s': State)
    requires Reachable(s) && Takes(s, a, s')
    ensures Reachable(s')
  {
    var states, actions :| ReachedBy(states, actions, s);
    var states', actions' := states + [s'], actions + [a];
    forall i | 0 <= i < |actions'|
      ensures StepOf(states', actions', i)
    {
      if i < |actions| {
        assert StepOf(states, actions, i);
      }
    }
    assert ReachedBy(states', actions', s');
  }

  lemma ReachableKeeps(s: State)
    requires Reachable(s)
    ensures Invariant(s)
  {
    var states, actions :| ReachedBy(states, actions, s);
    RunsKeepInvariant(states, actions, |actions|);
  }

  /** A continuation of `s`. */
  ghost predicate Continues(states: seq<State>, actions: seq<Action>, s: State) {
    && |states| == |actions| + 1 && states[0] == s
    && forall i :: 0 <= i < |actions| ==> StepOf(states, actions, i)
  }

  lemma ContinuesFrom(s: State, a: Action, s': State, states: seq<State>, actions: seq<Action>)
    requires Takes(s, a, s') && Continues(states, actions, s')
    ensures Continues([s] + states, [a] + actions, s)
  {
    var states', actions' := [s] + states, [a] + actions;
    forall i | 0 <= i < |actions'|
      ensures StepOf(states', actions', i)
    {
      if i > 0 {
        assert states'[i] == states[i - 1] && actions'[i] == actions[i - 1] && states'[i + 1] == states[i];
        assert StepOf(states, actions, i - 1);
      } else {
        assert states'[0] == s && actions'[0] == a && states'[1] == s';
      }
    }
  }

  /**
   In every state of every run: while the service runs and hears of network events, each registered peer is connected,
   or its handler has a timer, or a start-if-disconnected step or a disconnect notification for it is pending.
   */
  lemma PeersAreTended(states: seq<State>, actions: seq<Action>, i: nat, p: PeerId)
    requires IsRun(states, actions) && i < |states|
    requires states[i].service == Running && states[i].subscribed && p in states[i].peers
    ensures Linked(states[i]) && Tended(states[i], p)
  {
    RunsKeepInvariant(states, actions, i);
  }

  /** In every state of every run: protection follows registration, and cancellation follows removal and stopping. */
  lemma ProtectionAndCancellation(states: seq<State>, actions: seq<Action>, i: nat)
    requires IsRun(states, actions) && i < |states|
    ensures ProtectsPeers(states[i]) && CancelledRight(states[i])
  {
    RunsKeepInvariant(states, actions, i);
  }

  /** Bounds on every delay and every scheduled wait, in every state of every run. */
  lemma DelaysInBounds(states: seq<State>, actions: seq<Action>, i: nat, id: HandlerId)
    requires IsRun(states, actions) && i < |states| && id in states[i].handlers
    ensures var h := states[i].handlers[id];
            && 5 * SECOND <= h.nextDelay <= 600 * SECOND
            && (h.timer.Armed? ==> 15 * SECOND <= 2 * h.timer.wait && h.timer.wait <= 600 * SECOND)
            && (h.calls == 1 ==> 15 * SECOND <= 2 * h.nextDelay < 25 * SECOND)
            && (h.calls >= 12 ==> h.nextDelay > 540 * SECOND)
  {
    RunsKeepInvariant(states, actions, i);
    var h := states[i].handlers[id];
    assert ValidHandler(h);
    if h.calls >= 12 {
      TwelveCallsReachTheCap(h.calls);
    }
  }

  // ---------------------------------------------------------------- a timer is not always a promise

  /** `t` is a reconnect of handler `id` that may yet rearm the timer or remove it. */
  predicate Flies(t: Task, id: HandlerId) {
    HasHandler(t) && t.h == id && (t.Reconnecting? || t.Dialling? || t.DialFailed? || t.Dialled?)
  }

  ghost predicate InFlight(s: State, id: HandlerId) { exists t :: t in s.tasks && Flies(t, id) }

  /** The timer of handler `id` is there but will not fire, and no reconnect is under way to change that. */
  ghost predicate Grounded(s: State, id: HandlerId) {
    id in s.handlers && s.handlers[id].timer == Idle && !InFlight(s, id)
  }

  /** A registered peer that is disconnected and that nobody will redial. */
  ghost predicate Stuck(s: State, p: PeerId) { p in s.peers && !Connected(s, p) && Grounded(s, s.peers[p]) }

  /** The step is the final check of a reconnect of `id` that dialled successfully, and it finds peer `p` gone again. */
  ghost predicate LosesPeer(s: State, a: Action, p: PeerId, id: HandlerId) {
    && a.Run? && a.t == Dialled(id) && !Connected(s, p)
    && id in s.handlers && s.handlers[id].timer == Idle
    && s.tasks[a.t] == 1 && forall t :: t in s.tasks && Flies(t, id) ==> t == a.t
  }

  /** A stop-if-connected step of `id` that finds peer `p` connected. */
  predicate FindsPeer(s: State, a: Action, p: PeerId, id: HandlerId) {
    a.Run? && (a.t == Stopping(id) || a.t == Retrying(id)) && Connected(s, p)
  }

  /** At step `j` the last reconnect of `id` lost the peer, and no later step up to `i` found it. */
  ghost predicate LostSince(states: seq<State>, actions: seq<Action>, p: PeerId, id: HandlerId, j: nat, i: nat)
    requires i <= |actions| < |states|
  {
    && j < i && LosesPeer(states[j], actions[j], p, id)
    && forall k :: j < k < i ==> !FindsPeer(states[k], actions[k], p, id)
  }

  lemma FlightGoesOn(s: State, a: Action, id: HandlerId, t: Task)
    requires Linked(s) && Enabled(s, a) && t in s.tasks && Flies(t, id) && !(a.Run? && a.t == t)
    ensures InFlight(Apply(s, a), id)
  {
    if a.DialReturns? && a.t == t {
      var next := if a.ok then Dialled(id) else DialFailed(id);
      assert next in Produced(s, a);
      TaskKept(s, a, next);
    } else {
      TaskKept(s, a, t);
    }
  }

  /** A timer that is idle after a step was idle before it, or has just fired. */
  lemma IdleBefore(s: State, a: Action, id: HandlerId)
    requires Linked(s) && Enabled(s, a) && a != Fire(id)
    requires id in HandlersAfter(s, a) && HandlersAfter(s, a)[id].timer == Idle
    ensures id in s.handlers && s.handlers[id].timer == Idle
  {
    if id !in s.handlers {
      NewHandlersFrame(s, a, id);
    } else if !(a.Run? && HasHandler(a.t) && a.t.h == id) {
      HandlersFrame(s, a, id);
    }
  }

  lemma FiredFlies(s: State, id: HandlerId)
    requires Linked(s) && Enabled(s, Fire(id))
    ensures InFlight(Apply(s, Fire(id)), id)
  {
    assert Reconnecting(id) in Produced(s, Fire(id));
    TaskKept(s, Fire(id), Reconnecting(id));
  }

  lemma FindingEnds(s: State, a: Action, p: PeerId, id: HandlerId)
    requires Linked(s) && Enabled(s, a) && FindsPeer(s, a, p, id) && s.handlers[id].peer == p
    ensures HandlersAfter(s, a)[id].timer == Absent
  {}

  /** How a handler gets grounded. */
  lemma GroundedBefore(s: State, a: Action, s': State, p: PeerId, id: HandlerId)
    requires Takes(s, a, s') && Grounded(s', id) && s'.handlers[id].peer == p
    ensures (Grounded(s, id) && s.handlers[id].peer == p) || LosesPeer(s, a, p, id)
    ensures !FindsPeer(s, a, p, id)
  {
    if a == Fire(id) {
      FiredFlies(s, id);
    }
    IdleBefore(s, a, id);
    HandlerPeerKept(s, a, id);
    if FindsPeer(s, a, p, id) {
      FindingEnds(s, a, p, id);
    }
    if !Grounded(s, id) {
      var u :| u in s.tasks && Flies(u, id);
      LastFlight(s, a, id, u);
    }
  }

  lemma DialFlies(s: State, a: Action, id: HandlerId)
    requires Linked(s) && Enabled(s, a) && a.Run? && a.t == Reconnecting(id)
    ensures InFlight(Apply(s, a), id)
  {
    var next := Dialling(id, s.handlers[id].addrs);
    assert next in Produced(s, a);
    TaskKept(s, a, next);
    assert Flies(next, id);
  }

  lemma LastFlight(s: State, a: Action, id: HandlerId, u: Task)
    requires Linked(s) && Enabled(s, a) && Grounded(Apply(s, a), id) && id in s.handlers && s.handlers[id].timer == Idle
    requires u in s.tasks && Flies(u, id)
    ensures LosesPeer(s, a, s.handlers[id].peer, id)
  {
    if !(a.Run? && a.t == u) {
      FlightGoesOn(s, a, id, u);
    }
    if a.t.Reconnecting? {
      DialFlies(s, a, id);
    }
    forall t | t in s.tasks && Flies(t, id)
      ensures t == a.t
    {
      if t != a.t {
        FlightGoesOn(s, a, id, t);
      }
    }
    assert a.t !in Apply(s, a).tasks;
  }

  /** Nothing but a step that finds the peer, removal or Stop ends it. */
  lemma GroundedStays(s: State, a: Action, p: PeerId, id: HandlerId)
    requires Linked(s) && Enabled(s, a) && p in s.peers && s.peers[p] == id && Grounded(s, id)
    requires a != RemovePeer(p) && !(a.Run? && a.t.StopSection?) && !FindsPeer(s, a, p, id)
    ensures Grounded(Apply(s, a), id)
  {
    GroundedTimerKept(s, a, p, id);
    forall t | t in Apply(s, a).tasks
      ensures !Flies(t, id)
    {
      TaskKept(s, a, t);
      NoNewFlight(s, a, id, t);
    }
  }

  lemma NoNewFlight(s: State, a: Action, id: HandlerId, t: Task)
    requires Linked(s) && Enabled(s, a) && Grounded(s, id)
    ensures t in Produced(s, a) ==> !Flies(t, id)
  {
    if a.DialReturns? || a.Run? {
      assert !Flies(a.t, id);
    }
  }

  lemma GroundedTimerKept(s: State, a: Action, p: PeerId, id: HandlerId)
    requires Linked(s) && Enabled(s, a) && p in s.peers && s.peers[p] == id && Grounded(s, id)
    requires a != RemovePeer(p) && !(a.Run? && a.t.StopSection?) && !FindsPeer(s, a, p, id)
    ensures id in HandlersAfter(s, a) && HandlersAfter(s, a)[id].timer == Idle
  {
    if a.Run? && HasHandler(a.t) && a.t.h == id {
      assert !Flies(a.t, id);
    } else if a.RemovePeer? && a.p in s.peers {
      assert s.peers[a.p] != id;
    } else {
      HandlersFrame(s, a, id);
    }
  }

  /** The step that loses the peer leaves the handler grounded. */
  lemma LosingGrounds(s: State, a: Action, p: PeerId, id: HandlerId)
    requires Linked(s) && Enabled(s, a) && LosesPeer(s, a, p, id) && s.handlers[id].peer == p
    ensures Grounded(Apply(s, a), id)
  {
    forall t | t in Apply(s, a).tasks
      ensures !Flies(t, id)
    {
      TaskKept(s, a, t);
    }
  }

  /** Peer `p` has handler `id`, and the service has not stopped. */
  predicate Served(s: State, p: PeerId, id: HandlerId) { s.service != Stopped && p in s.peers && s.peers[p] == id }

  /** A handler in service after a step was in service before it, if it existed. */
  lemma ServedBefore(s: State, a: Action, s': State, p: PeerId, id: HandlerId)
    requires Takes(s, a, s') && id in s.handlers && Served(s', p, id)
    ensures Served(s, p, id) && a != RemovePeer(p) && !(a.Run? && a.t.StopSection?)
  {}

  lemma StillGrounded(s: State, a: Action, s': State, p: PeerId, id: HandlerId)
    requires Takes(s, a, s') && Served(s', p, id)
    requires LosesPeer(s, a, p, id) || (Grounded(s, id) && !FindsPeer(s, a, p, id))
    ensures Grounded(s', id)
  {
    ServedBefore(s, a, s', p, id);
    if LosesPeer(s, a, p, id) {
      LosingGrounds(s, a, p, id);
    } else {
      GroundedStays(s, a, p, id);
    }
  }

  lemma {:induction false} LostIsGrounded(states: seq<State>, actions: seq<Action>, p: PeerId, id: HandlerId, j: nat,
                                          i: nat)
    requires IsRun(states, actions) && i < |states| && Served(states[i], p, id)
    requires LostSince(states, actions, p, id, j, i)
    ensures Grounded(states[i], id)
    decreases i
  {
    var s, a := states[i - 1], actions[i - 1];
    assert StepOf(states, actions, i - 1);
    HandlersStay(states, actions, j, i - 1, id);
    if j < i - 1 {
      ServedBefore(s, a, states[i], p, id);
      LostIsGrounded(states, actions, p, id, j, i - 1);
    }
    StillGrounded(s, a, states[i], p, id);
  }

  lemma {:induction false} HandlersStay(states: seq<State>, actions: seq<Action>, j: nat, i: nat, id: HandlerId)
    requires IsRun(states, actions) && j <= i < |states| && id in states[j].handlers
    ensures id in states[i].handlers
    decreases i
  {
    if j < i {
      HandlersStay(states, actions, j, i - 1, id);
      assert StepOf(states, actions, i - 1);
      HandlerPeerKept(states[i - 1], actions[i - 1], id);
    }
  }

  lemma GroundedStep(states: seq<State>, actions: seq<Action>, p: PeerId, id: HandlerId, i: nat)
    requires IsRun(states, actions) && i < |states| && Grounded(states[i], id) && states[i].handlers[id].peer == p
    ensures i > 0 && !FindsPeer(states[i - 1], actions[i - 1], p, id)
    ensures || (Grounded(states[i - 1], id) && states[i - 1].handlers[id].peer == p)
            || LosesPeer(states[i - 1], actions[i - 1], p, id)
  {
    assert StepOf(states, actions, i - 1);
    GroundedBefore(states[i - 1], actions[i - 1], states[i], p, id);
  }

  lemma {:induction false} GroundedWasLost(states: seq<State>, actions: seq<Action>, p: PeerId, id: HandlerId, i: nat)
    returns (j: nat)
    requires IsRun(states, actions) && i < |states| && Grounded(states[i], id) && states[i].handlers[id].peer == p
    ensures LostSince(states, actions, p, id, j, i)
    decreases i
  {
    GroundedStep(states, actions, p, id, i);
    if Grounded(states[i - 1], id) && states[i - 1].handlers[id].peer == p {
      j := GroundedWasLost(states, actions, p, id, i - 1);
    } else {
      j := i - 1;
    }
  }

  /**
   Exactly when a registered peer is stuck: it is disconnected, its last reconnect dialled successfully but found the
   peer gone at the final check, and no stop-if-connected step since then found it back.
   */
  lemma StuckIff(states: seq<State>, actions: seq<Action>, i: nat, p: PeerId)
    requires IsRun(states, actions) && i < |states| && states[i].service != Stopped && p in states[i].peers
    ensures Stuck(states[i], p) <==>
            !Connected(states[i], p) && exists j :: LostSince(states, actions, p, states[i].peers[p], j, i)
  {
    RunsKeepInvariant(states, actions, i);
    var id := states[i].peers[p];
    if Grounded(states[i], id) {
      var j := GroundedWasLost(states, actions, p, id, i);
    }
    if exists j :: LostSince(states, actions, p, id, j, i) {
      var j :| LostSince(states, actions, p, id, j, i);
      LostIsGrounded(states, actions, p, id, j, i);
    }
  }

  /** A stuck peer stays stuck until someone else opens a connection to it, or it is removed, or the service stops. */
  lemma StuckStays(s: State, a: Action, p: PeerId)
    requires Linked(s) && Enabled(s, a) && Stuck(s, p)
    requires a != OpenConn(p) && a != RemovePeer(p) && !(a.Run? && a.t.StopSection?)
    ensures Linked(Apply(s, a)) && Stuck(Apply(s, a), p)
  {
    StepKeepsLinked(s, a);
    GroundedStays(s, a, p, s.peers[p]);
  }
}
