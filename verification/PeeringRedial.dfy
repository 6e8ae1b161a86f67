/**
 Whether the peering service (peering/peering.go) will ever dial a disconnected peer again, with nobody's help: while
 the peer stays registered, the service goes on, and no connection is opened from elsewhere.
 */
module PeeringRedial {
  import opened PeerHandlers
  import opened Peering
  import opened PeeringStuck

  /** A step of the service itself, of its timers and goroutines, or of the network against it. */
  predicate Unaided(a: Action, p: PeerId) {
    a != OpenConn(p) && a != RemovePeer(p) && !(a.Run? && a.t.StopSection?)
  }

  ghost predicate DialsPeer(s: State, id: HandlerId) { exists t :: t in s.tasks && t.Dialling? && t.h == id }

  /** The continuation of `s` ends in a dial by handler `id` of peer `p`. */
  ghost predicate RedialsIn(states: seq<State>, actions: seq<Action>, s: State, p: PeerId, id: HandlerId) {
    && Continues(states, actions, s) && DialsPeer(states[|actions|], id)
    && forall i :: 0 <= i < |actions| ==> Unaided(actions[i], p)
  }

  ghost predicate Redials(s: State, p: PeerId, id: HandlerId) {
    exists states, actions :: RedialsIn(states, actions, s, p, id)
  }

  /** The timer has fired, and every reconnect under way has its successful dial behind it. */
  ghost predicate DialledOut(s: State, id: HandlerId) {
    id in s.handlers && s.handlers[id].timer == Idle && forall t :: t in s.tasks && Flies(t, id) ==> t.Dialled?
  }

  /** Peer `p` has handler `id` and is disconnected. */
  predicate Waits(s: State, p: PeerId, id: HandlerId) { p in s.peers && s.peers[p] == id && !Connected(s, p) }

  // ---------------------------------------------------------------- no dial to come

  lemma IdleStays(s: State, a: Action, p: PeerId, id: HandlerId)
    requires Linked(s) && Enabled(s, a) && Unaided(a, p) && Waits(s, p, id) && DialledOut(s, id)
    ensures id in HandlersAfter(s, a) && HandlersAfter(s, a)[id].timer == Idle
  {
    if a.Run? && HasHandler(a.t) && a.t.h == id {
      assert Flies(a.t, id) ==> a.t.Dialled?;
    } else if a.RemovePeer? && a.p in s.peers {
      assert s.peers[a.p] != id;
    } else {
      HandlersFrame(s, a, id);
    }
  }

  lemma NoNewDial(s: State, a: Action, id: HandlerId, t: Task)
    requires Linked(s) && Enabled(s, a) && DialledOut(s, id)
    ensures t in Produced(s, a) ==> !Flies(t, id)
  {
    if a.DialReturns? || a.Run? {
      assert Flies(a.t, id) ==> a.t.Dialled?;
    }
  }

  lemma FliesOnDialled(s: State, a: Action, id: HandlerId, t: Task)
    requires Linked(s) && Enabled(s, a) && DialledOut(s, id) && t in Apply(s, a).tasks && Flies(t, id)
    ensures t.Dialled?
  {
    TaskKept(s, a, t);
    NoNewDial(s, a, id, t);
  }

  lemma WaitsOn(s: State, a: Action, p: PeerId, id: HandlerId)
    requires Linked(s) && Enabled(s, a) && Unaided(a, p) && Waits(s, p, id)
    ensures p in PeersAfter(s, a) && PeersAfter(s, a)[p] == id && p !in ConnsAfter(s, a)
  {}

  lemma DialledOutStays(s: State, a: Action, s': State, p: PeerId, id: HandlerId)
    requires Takes(s, a, s') && Unaided(a, p) && Waits(s, p, id) && DialledOut(s, id)
    ensures Waits(s', p, id) && DialledOut(s', id)
  {
    IdleStays(s, a, p, id);
    WaitsOn(s, a, p, id);
    forall t | t in s'.tasks && Flies(t, id)
      ensures t.Dialled?
    {
      FliesOnDialled(s, a, id, t);
    }
  }

  lemma {:induction false} DialledOutForGood(states: seq<State>, actions: seq<Action>, s: State, p: PeerId,
                                             id: HandlerId, i: nat)
    requires Continues(states, actions, s) && Waits(s, p, id) && DialledOut(s, id) && i < |states|
    requires forall k :: 0 <= k < |actions| ==> Unaided(actions[k], p)
    ensures Waits(states[i], p, id) && DialledOut(states[i], id)
    decreases i
  {
    if i > 0 {
      DialledOutForGood(states, actions, s, p, id, i - 1);
      assert StepOf(states, actions, i - 1);
      DialledOutStays(states[i - 1], actions[i - 1], states[i], p, id);
    }
  }

  lemma DialledOutDials(s: State, id: HandlerId)
    requires DialledOut(s, id)
    ensures !DialsPeer(s, id)
  {
    assert forall t :: t in s.tasks && t.Dialling? && t.h == id ==> Flies(t, id);
  }

  // ---------------------------------------------------------------- a dial to come

  lemma DiallingRedials(s: State, p: PeerId, id: HandlerId)
    requires DialsPeer(s, id)
    ensures Redials(s, p, id)
  {
    assert RedialsIn([s], [], s, p, id);
  }

  lemma RedialsBefore(s: State, a: Action, s': State, p: PeerId, id: HandlerId)
    requires Takes(s, a, s') && Unaided(a, p) && Redials(s', p, id)
    ensures Redials(s, p, id)
  {
    var states, actions :| RedialsIn(states, actions, s', p, id);
    ContinuesFrom(s, a, s', states, actions);
    assert RedialsIn([s] + states, [a] + actions, s, p, id);
  }

  lemma ReconnectingRedials(s: State, p: PeerId, id: HandlerId)
    requires Reachable(s) && Reconnecting(id) in s.tasks
    ensures Redials(s, p, id)
  {
    ReachableKeeps(s);
    var a, next := Run(Reconnecting(id), NO_LUCK), Dialling(id, s.handlers[id].addrs);
    assert ValidHandler(s.handlers[id]);
    assert next in Produced(s, a);
    TaskKept(s, a, next);
    DiallingRedials(Apply(s, a), p, id);
    RedialsBefore(s, a, Apply(s, a), p, id);
  }

  lemma ArmedRedials(s: State, p: PeerId, id: HandlerId)
    requires Reachable(s) && id in s.handlers && s.handlers[id].timer.Armed?
    ensures Redials(s, p, id)
  {
    ReachableKeeps(s);
    var a := Fire(id);
    assert Reconnecting(id) in Produced(s, a);
    TaskKept(s, a, Reconnecting(id));
    ReachNext(s, a, Apply(s, a));
    ReconnectingRedials(Apply(s, a), p, id);
    RedialsBefore(s, a, Apply(s, a), p, id);
  }

  /** A section of the handler's own that arms the timer. */
  lemma ArmingRedials(s: State, p: PeerId, id: HandlerId, t: Task)
    requires Reachable(s) && t in s.tasks && Waits(s, p, id)
    requires id in s.handlers && t == if s.handlers[id].timer == Absent then Starting(id) else DialFailed(id)
    ensures Redials(s, p, id)
  {
    ReachableKeeps(s);
    var a := Run(t, NO_LUCK);
    assert ValidHandler(s.handlers[id]) && s.handlers[id].peer == p;
    ReachNext(s, a, Apply(s, a));
    ArmedRedials(Apply(s, a), p, id);
    RedialsBefore(s, a, Apply(s, a), p, id);
  }

  lemma EventRedials(s: State, p: PeerId, id: HandlerId)
    requires Reachable(s) && Waits(s, p, id) && id in s.handlers && s.handlers[id].timer == Absent
    requires DisconnectedEvent(p) in s.tasks
    ensures Redials(s, p, id)
  {
    ReachableKeeps(s);
    var a := Run(DisconnectedEvent(p), NO_LUCK);
    assert Starting(id) in Produced(s, a);
    TaskKept(s, a, Starting(id));
    ReachNext(s, a, Apply(s, a));
    ArmingRedials(Apply(s, a), p, id, Starting(id));
    RedialsBefore(s, a, Apply(s, a), p, id);
  }

  lemma FlyingRedials(s: State, p: PeerId, id: HandlerId, t: Task)
    requires Reachable(s) && Waits(s, p, id) && id in s.handlers && s.handlers[id].timer == Idle
    requires t in s.tasks && Flies(t, id) && !t.Dialled?
    ensures Redials(s, p, id)
  {
    if t.Reconnecting? {
      ReconnectingRedials(s, p, id);
    } else if t.Dialling? {
      DiallingRedials(s, p, id);
    } else {
      ArmingRedials(s, p, id, t);
    }
  }

  /**
   While the service runs and hears of network events, it may still dial a disconnected peer by itself exactly when that
   peer's timer is not one that has fired with nothing but successful dials to follow.
   */
  lemma RedialsIff(s: State, p: PeerId)
    requires Reachable(s) && s.service == Running && s.subscribed && p in s.peers && !Connected(s, p)
    ensures Redials(s, p, s.peers[p]) <==> !DialledOut(s, s.peers[p])
  {
    var id := s.peers[p];
    ReachableKeeps(s);
    assert Tended(s, p);
    if DialledOut(s, id) {
      if Redials(s, p, id) {
        var states, actions :| RedialsIn(states, actions, s, p, id);
        DialledOutForGood(states, actions, s, p, id, |actions|);
        DialledOutDials(states[|actions|], id);
      }
    } else if s.handlers[id].timer.Armed? {
      ArmedRedials(s, p, id);
    } else if s.handlers[id].timer == Idle {
      var t :| t in s.tasks && Flies(t, id) && !t.Dialled?;
      FlyingRedials(s, p, id, t);
    } else if Starting(id) in s.tasks {
      ArmingRedials(s, p, id, Starting(id));
    } else {
      EventRedials(s, p, id);
    }
  }

  /** A stuck peer is one of those that will not be dialled. */
  lemma StuckIsDialledOut(s: State, p: PeerId)
    requires Stuck(s, p)
    ensures DialledOut(s, s.peers[p])
  {}
}
