/**
 What becomes of a handler after its `stop` (peering/peering.go), which RemovePeer and Stop call. It is documented to be
 permanent, but startIfDisconnected does not look at the cancelled context: whoever still gets to it puts a timer back.
 */
module PeeringRestart {
  import opened PeerHandlers
  import opened Peering
  import opened PeeringStuck

  /** A handler that has been stopped and has no timer. */
  ghost predicate Off(s: State, id: HandlerId) {
    id in s.handlers && s.handlers[id].cancelled && s.handlers[id].timer == Absent
  }

  /** Someone may still get to startIfDisconnected: a goroutine, or a notification for a peer that is registered. */
  ghost predicate StartAhead(s: State, id: HandlerId)
    requires id in s.handlers
  {
    || Starting(id) in s.tasks
    || (IsRegistered(s, id) && (s.subscribed || DisconnectedEvent(s.handlers[id].peer) in s.tasks))
  }

  // ---------------------------------------------------------------- nobody does

  /** A stopped handler that is still registered belongs to a stopped service. */
  lemma RegisteredIsStopped(s: State, id: HandlerId)
    requires Reachable(s) && Off(s, id) && IsRegistered(s, id)
    ensures s.service == Stopped
  {
    ReachableKeeps(s);
  }

  lemma NoNewStart(s: State, a: Action, id: HandlerId)
    requires Linked(s) && Enabled(s, a) && id in s.handlers && (IsRegistered(s, id) ==> s.service == Stopped)
    requires !StartAhead(s, id)
    ensures Starting(id) !in Produced(s, a)
  {
    assert !IsRegistered(s, id) ==> id !in Registered(s);
  }

  lemma NoNewEvent(s: State, a: Action, id: HandlerId)
    requires Linked(s) && Enabled(s, a) && id in s.handlers && !StartAhead(s, id) && IsRegistered(s, id)
    requires s.service == Stopped
    ensures !SubscribedAfter(s, a) && DisconnectedEvent(s.handlers[id].peer) !in Produced(s, a)
  {}

  lemma StaysOff(s: State, a: Action, id: HandlerId)
    requires Linked(s) && Enabled(s, a) && Off(s, id) && Starting(id) !in s.tasks
    ensures id in HandlersAfter(s, a) && HandlersAfter(s, a)[id].timer == Absent && HandlersAfter(s, a)[id].cancelled
  {
    if !(a.Run? && HasHandler(a.t) && a.t.h == id) {
      HandlersFrame(s, a, id);
    }
  }

  lemma RegisteredBefore(s: State, a: Action, s': State, id: HandlerId)
    requires Takes(s, a, s') && id in s.handlers && id in s'.handlers && IsRegistered(s', id)
    ensures IsRegistered(s, id) && s'.handlers[id].peer == s.handlers[id].peer
  {
    HandlerPeerKept(s, a, id);
  }

  lemma NoStartAhead(s: State, a: Action, s': State, id: HandlerId)
    requires Reachable(s) && Takes(s, a, s') && Off(s, id) && id in s'.handlers && !StartAhead(s, id)
    ensures !StartAhead(s', id)
  {
    if IsRegistered(s, id) {
      RegisteredIsStopped(s, id);
      NoNewEvent(s, a, id);
    }
    NoNewStart(s, a, id);
    TaskKept(s, a, Starting(id));
    if IsRegistered(s', id) {
      RegisteredBefore(s, a, s', id);
      TaskKept(s, a, DisconnectedEvent(s.handlers[id].peer));
    }
  }

  lemma OffStays(s: State, a: Action, s': State, id: HandlerId)
    requires Reachable(s) && Takes(s, a, s') && Off(s, id) && !StartAhead(s, id)
    ensures Reachable(s') && Off(s', id) && !StartAhead(s', id)
  {
    ReachNext(s, a, s');
    StaysOff(s, a, id);
    NoStartAhead(s, a, s', id);
  }

  /** With nobody ahead a stopped handler never has a timer again. */
  lemma {:induction false} OffForGood(states: seq<State>, actions: seq<Action>, s: State, id: HandlerId, i: nat)
    requires Continues(states, actions, s) && Reachable(s) && Off(s, id) && !StartAhead(s, id) && i < |states|
    ensures Reachable(states[i]) && Off(states[i], id) && !StartAhead(states[i], id)
    decreases i
  {
    if i > 0 {
      OffForGood(states, actions, s, id, i - 1);
      assert StepOf(states, actions, i - 1);
      OffStays(states[i - 1], actions[i - 1], states[i], id);
    }
  }

  // ---------------------------------------------------------------- somebody does

  /** The continuation of `s` ends with a timer in handler `id`. */
  ghost predicate RestartsIn(states: seq<State>, actions: seq<Action>, s: State, id: HandlerId) {
    Continues(states, actions, s) && id in states[|actions|].handlers && states[|actions|].handlers[id].timer != Absent
  }

  ghost predicate Restarts(s: State, id: HandlerId) { exists states, actions :: RestartsIn(states, actions, s, id) }

  lemma RestartsBefore(s: State, a: Action, s': State, id: HandlerId)
    requires Takes(s, a, s') && Restarts(s', id)
    ensures Restarts(s, id)
  {
    var states, actions :| RestartsIn(states, actions, s', id);
    ContinuesFrom(s, a, s', states, actions);
    assert RestartsIn([s] + states, [a] + actions, s, id);
  }

  /** A start goroutine that finds the peer disconnected. */
  lemma StartRestarts(s: State, id: HandlerId)
    requires Reachable(s) && Off(s, id) && Starting(id) in s.tasks && !Connected(s, s.handlers[id].peer)
    ensures Restarts(s, id)
  {
    var a := Run(Starting(id), NO_LUCK);
    ReachableKeeps(s);
    assert ValidHandler(s.handlers[id]);
    var states, actions := [s, Apply(s, a)], [a];
    assert StepOf(states, actions, 0);
    assert RestartsIn(states, actions, s, id);
  }

  /** What a step of the network leaves of a handler and its surroundings. */
  lemma NetworkStep(s: State, a: Action, id: HandlerId)
    requires Reachable(s) && Off(s, id) && (a.OpenConn? || (a.CloseConn? && Connected(s, a.p)))
    ensures Linked(s) && Enabled(s, a)
    ensures var s' := Apply(s, a);
            && Reachable(s') && Off(s', id)
            && s'.handlers == s.handlers && s'.peers == s.peers && s'.subscribed == s.subscribed
            && s'.conns == ConnsAfter(s, a) && (Starting(id) in s.tasks ==> Starting(id) in s'.tasks)
            && (a.CloseConn? && s.subscribed ==> DisconnectedEvent(a.p) in s'.tasks)
  {
    ReachableKeeps(s);
    TaskKept(s, a, Starting(id));
    if a.CloseConn? && s.subscribed {
      assert DisconnectedEvent(a.p) in Produced(s, a);
      TaskKept(s, a, DisconnectedEvent(a.p));
    }
    ReachNext(s, a, Apply(s, a));
  }

  lemma {:induction false} PendingRestarts(s: State, id: HandlerId)
    requires Reachable(s) && Off(s, id) && Starting(id) in s.tasks
    ensures Restarts(s, id)
    decreases s.conns[s.handlers[id].peer]
  {
    var p := s.handlers[id].peer;
    if Connected(s, p) {
      NetworkStep(s, CloseConn(p), id);
      PendingRestarts(Apply(s, CloseConn(p)), id);
      RestartsBefore(s, CloseConn(p), Apply(s, CloseConn(p)), id);
    } else {
      StartRestarts(s, id);
    }
  }

  lemma EventStep(s: State, id: HandlerId)
    requires Reachable(s) && Off(s, id) && IsRegistered(s, id) && DisconnectedEvent(s.handlers[id].peer) in s.tasks
    ensures var a := Run(DisconnectedEvent(s.handlers[id].peer), NO_LUCK);
            && Linked(s) && Enabled(s, a)
            && Reachable(Apply(s, a)) && Off(Apply(s, a), id) && Starting(id) in Apply(s, a).tasks
  {
    var a := Run(DisconnectedEvent(s.handlers[id].peer), NO_LUCK);
    ReachableKeeps(s);
    assert Starting(id) in Produced(s, a);
    TaskKept(s, a, Starting(id));
    ReachNext(s, a, Apply(s, a));
  }

  lemma EventRestarts(s: State, id: HandlerId)
    requires Reachable(s) && Off(s, id) && IsRegistered(s, id) && DisconnectedEvent(s.handlers[id].peer) in s.tasks
    ensures Restarts(s, id)
  {
    var a := Run(DisconnectedEvent(s.handlers[id].peer), NO_LUCK);
    EventStep(s, id);
    PendingRestarts(Apply(s, a), id);
    RestartsBefore(s, a, Apply(s, a), id);
  }

  lemma ClosingRestarts(s: State, id: HandlerId)
    requires Reachable(s) && Off(s, id) && IsRegistered(s, id) && s.subscribed && Connected(s, s.handlers[id].peer)
    ensures Restarts(s, id)
  {
    var a := CloseConn(s.handlers[id].peer);
    NetworkStep(s, a, id);
    EventRestarts(Apply(s, a), id);
    RestartsBefore(s, a, Apply(s, a), id);
  }

  lemma SubscribedRestarts(s: State, id: HandlerId)
    requires Reachable(s) && Off(s, id) && IsRegistered(s, id) && s.subscribed
    ensures Restarts(s, id)
  {
    var a := OpenConn(s.handlers[id].peer);
    NetworkStep(s, a, id);
    ClosingRestarts(Apply(s, a), id);
    RestartsBefore(s, a, Apply(s, a), id);
  }

  /**
   The timer of a stopped handler can come back exactly when a start goroutine is pending, or the peer is registered
   and a disconnect notification for it is on its way or may yet be sent.
   */
  lemma RestartsIff(s: State, id: HandlerId)
    requires Reachable(s) && Off(s, id)
    ensures Restarts(s, id) <==> StartAhead(s, id)
  {
    if Starting(id) in s.tasks {
      PendingRestarts(s, id);
    } else if StartAhead(s, id) && s.subscribed {
      SubscribedRestarts(s, id);
    } else if StartAhead(s, id) {
      EventRestarts(s, id);
    } else if Restarts(s, id) {
      var states, actions :| RestartsIn(states, actions, s, id);
      OffForGood(states, actions, s, id, |actions|);
    }
  }

  // ---------------------------------------------------------------- both callers of stop

  const DROPPED := STARTED.(peers := map[], protected := {}, handlers := map[0 := StopHandler(NewHandler(0, []))])

  lemma RemoveStep()
    ensures Takes(STARTED, RemovePeer(0), DROPPED)
  {
    assert STARTED.tasks - multiset{} + multiset{} == DROPPED.tasks;
  }

  /** RemovePeer right after Start: the handler is cancelled and forgotten, and its timer can come back. */
  lemma RemovedRestarts()
    ensures Reachable(DROPPED) && Off(DROPPED, 0) && !IsRegistered(DROPPED, 0) && Restarts(DROPPED, 0)
  {
    StartedReachable();
    RemoveStep();
    ReachNext(STARTED, RemovePeer(0), DROPPED);
    RestartsIff(DROPPED, 0);
  }

  const LEAVING := STARTED.(subscribed := false, tasks := multiset{Starting(0), StopSection})
  const HALTED :=
    LEAVING.(service := Stopped, tasks := multiset{Starting(0)}, handlers := map[0 := StopHandler(NewHandler(0, []))])

  lemma LeaveStep()
    ensures Takes(STARTED, StopNotify, LEAVING)
  {
    assert STARTED.tasks - multiset{} + multiset{StopSection} == LEAVING.tasks;
  }

  lemma HaltStep()
    ensures Takes(LEAVING, Run(StopSection, NO_LUCK), HALTED)
  {
    assert LEAVING.tasks - multiset{StopSection} + multiset{} == HALTED.tasks;
    assert 0 in LEAVING.peers && LEAVING.peers[0] == 0;
    assert Registered(LEAVING) == {0};
    assert StopAll(LEAVING) == HALTED.handlers;
  }

  /** Stop right after Start: the service has stopped, and the timer of its peer can come back. */
  lemma HaltedRestarts()
    ensures Reachable(HALTED) && HALTED.service == Stopped && Off(HALTED, 0) && IsRegistered(HALTED, 0)
    ensures Restarts(HALTED, 0)
  {
    StartedReachable();
    LeaveStep();
    ReachNext(STARTED, StopNotify, LEAVING);
    HaltStep();
    ReachNext(LEAVING, Run(StopSection, NO_LUCK), HALTED);
    RestartsIff(HALTED, 0);
  }
}
