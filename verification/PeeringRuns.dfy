/**
 What runs of the peering service (peering/peering.go) show of a single handler: how long a stopped one keeps quiet,
 which addresses it dials, how a reconnect ends, and that a connection puts an end to redialling.
 */
module PeeringRuns {
  import opened PeerHandlers
  import opened Peering

  // ---------------------------------------------------------------- stopping

  lemma Stepped(states: seq<State>, actions: seq<Action>, i: nat)
    requires IsRun(states, actions) && 0 < i < |states|
    ensures states[i] in Successors(states[i - 1], actions[i - 1])
  {
    assert StepOf(states, actions, i - 1);
  }

  /** The step removes the peer of handler `id`, stops the service, or creates the handler after the service stopped. */
  ghost predicate Stops(s: State, a: Action, id: HandlerId) {
    || (a.RemovePeer? && a.p in s.peers && s.peers[a.p] == id)
    || (a.Run? && a.t.StopSection? && s.service != Stopped && exists p :: p in s.peers && s.peers[p] == id)
    || (a.AddPeer? && a.id == id && a.p !in s.peers && s.service == Stopped)
  }

  /** The step is a startIfDisconnected of `id` that finds neither a timer nor a connection. */
  predicate Starts(s: State, a: Action, id: HandlerId) {
    && a.Run? && a.t == Starting(id) && id in s.handlers
    && s.handlers[id].timer == Absent && !Connected(s, s.handlers[id].peer)
  }

  lemma StopClears(s: State, a: Action, s': State, id: HandlerId)
    requires s' in Successors(s, a) && Stops(s, a, id)
    ensures id in s'.handlers && s'.handlers[id].timer == Absent && s'.handlers[id].cancelled
  {
    if a.Run? {
      var p :| p in s.peers && s.peers[p] == id;
      assert id in Registered(s);
    }
  }

  /** Right after RemovePeer and right after Stop's section, the handlers concerned are cancelled and have no timer. */
  lemma StoppedHasNoTimer(states: seq<State>, actions: seq<Action>, i: nat, id: HandlerId)
    requires IsRun(states, actions) && i < |actions| && Stops(states[i], actions[i], id)
    ensures id in states[i + 1].handlers
    ensures states[i + 1].handlers[id].timer == Absent && states[i + 1].handlers[id].cancelled
  {
    Stepped(states, actions, i + 1);
    StopClears(states[i], actions[i], states[i + 1], id);
  }

  lemma TimerAppears(s: State, a: Action, s': State, id: HandlerId)
    requires s' in Successors(s, a) && id in s.handlers && s.handlers[id].timer == Absent
    requires id in s'.handlers && s'.handlers[id].timer != Absent
    ensures Starts(s, a, id)
  {
    if !(a.Run? && HasHandler(a.t) && a.t.h == id) {
      HandlersFrame(s, a, id);
    }
  }

  /** A startIfDisconnected of `id` has run at a step from `j` on and before `i`. */
  ghost predicate StartsBetween(states: seq<State>, actions: seq<Action>, j: nat, i: nat, id: HandlerId)
    requires i <= |actions| < |states|
  {
    exists k :: j <= k < i && Starts(states[k], actions[k], id)
  }

  lemma {:induction false} TimerWasStarted(states: seq<State>, actions: seq<Action>, j: nat, i: nat, id: HandlerId)
    requires IsRun(states, actions) && j <= i < |states| && id in states[j].handlers && id in states[i].handlers
    requires states[j].handlers[id].timer == Absent && states[i].handlers[id].timer != Absent
    ensures StartsBetween(states, actions, j, i, id)
    decreases i
  {
    HandlersStay(states, actions, j, i - 1, id);
    Stepped(states, actions, i);
    if states[i - 1].handlers[id].timer == Absent {
      TimerAppears(states[i - 1], actions[i - 1], states[i], id);
    } else {
      TimerWasStarted(states, actions, j, i - 1, id);
    }
  }

  /** In every run: between a stop of a handler and any later timer of it, a startIfDisconnected has run. */
  lemma TimerSinceStop(states: seq<State>, actions: seq<Action>, j: nat, i: nat, id: HandlerId)
    requires IsRun(states, actions) && j < i < |states| && Stops(states[j], actions[j], id)
    requires id in states[i].handlers && states[i].handlers[id].timer != Absent
    ensures StartsBetween(states, actions, j + 1, i, id)
  {
    StoppedHasNoTimer(states, actions, j, id);
    TimerWasStarted(states, actions, j + 1, i, id);
  }

  lemma CancelAppears(s: State, a: Action, s': State, id: HandlerId)
    requires s' in Successors(s, a) && id in s'.handlers && s'.handlers[id].cancelled
    ensures (id in s.handlers && s.handlers[id].cancelled) || Stops(s, a, id)
  {
    if id in s.handlers {
      CancelledFrame(s, a, id);
    } else {
      NewHandlersFrame(s, a, id);
    }
  }

  lemma {:induction false} CancelledWasStopped(states: seq<State>, actions: seq<Action>, i: nat, id: HandlerId)
    returns (j: nat)
    requires IsRun(states, actions) && i < |states| && id in states[i].handlers && states[i].handlers[id].cancelled
    ensures j < i && Stops(states[j], actions[j], id)
    decreases i
  {
    assert i > 0;
    Stepped(states, actions, i);
    CancelAppears(states[i - 1], actions[i - 1], states[i], id);
    if Stops(states[i - 1], actions[i - 1], id) {
      j := i - 1;
    } else {
      j := CancelledWasStopped(states, actions, i - 1, id);
    }
  }

  /**
   In every run: the timer of a cancelled handler fires only if, since every stop of that handler, a startIfDisconnected
   has run; and there has been a stop.
   */
  lemma FiresAfterStart(states: seq<State>, actions: seq<Action>, i: nat, id: HandlerId)
    requires IsRun(states, actions) && i < |actions| && actions[i] == Fire(id)
    requires id in states[i].handlers && states[i].handlers[id].cancelled
    ensures exists j :: 0 <= j < i && Stops(states[j], actions[j], id)
    ensures forall j :: 0 <= j < i && Stops(states[j], actions[j], id) ==> StartsBetween(states, actions, j + 1, i, id)
  {
    var last := CancelledWasStopped(states, actions, i, id);
    Stepped(states, actions, i + 1);
    forall j | 0 <= j < i && Stops(states[j], actions[j], id)
      ensures StartsBetween(states, actions, j + 1, i, id)
    {
      TimerSinceStop(states, actions, j, i, id);
    }
  }

  // ---------------------------------------------------------------- addresses

  predicate Gives(a: Action, p: PeerId) { a.AddPeer? && a.p == p }

  /** Step `j` was the last before `i` to give addresses for peer `p`. */
  predicate LastGiven(actions: seq<Action>, j: nat, i: nat, p: PeerId)
    requires i <= |actions|
  {
    j < i && Gives(actions[j], p) && forall k :: j < k < i ==> !Gives(actions[k], p)
  }

  ghost function Givings(actions: seq<Action>, i: nat, p: PeerId): iset<nat>
    requires i <= |actions|
  {
    iset j: nat | LastGiven(actions, j, i, p)
  }

  lemma GivenBefore(actions: seq<Action>, j: nat, i: nat, p: PeerId)
    requires 0 < i <= |actions|
    ensures Gives(actions[i - 1], p) ==> i - 1 in Givings(actions, i, p)
    ensures !Gives(actions[i - 1], p) && j in Givings(actions, i - 1, p) ==> j in Givings(actions, i, p)
  {}

  lemma AddrsKept(s: State, a: Action, id: HandlerId)
    requires Linked(s) && Enabled(s, a) && id in s.handlers && !(a.AddPeer? && a.p == s.handlers[id].peer)
    ensures id in HandlersAfter(s, a) && HandlersAfter(s, a)[id].addrs == s.handlers[id].addrs
  {
    if !(a.Run? && HasHandler(a.t) && a.t.h == id) {
      HandlersFrame(s, a, id);
    }
  }

  lemma AddrsGiven(s: State, a: Action, p: PeerId)
    requires Linked(s) && Enabled(s, a) && a.AddPeer? && a.p == p
    ensures p in PeersAfter(s, a) && PeersAfter(s, a)[p] in HandlersAfter(s, a)
    ensures HandlersAfter(s, a)[PeersAfter(s, a)[p]].addrs == a.addrs
  {}

  lemma AddrsStep(s: State, a: Action, s': State, p: PeerId)
    requires s' in Successors(s, a) && p in s'.peers
    ensures s'.peers[p] in s'.handlers
    ensures if a.AddPeer? && a.p == p then s'.handlers[s'.peers[p]].addrs == a.addrs
            else
              && p in s.peers && s.peers[p] in s.handlers && s'.peers[p] == s.peers[p]
              && s'.handlers[s'.peers[p]].addrs == s.handlers[s.peers[p]].addrs
  {
    if a.AddPeer? && a.p == p {
      AddrsGiven(s, a, p);
    } else {
      AddrsKept(s, a, s.peers[p]);
    }
  }

  lemma {:induction false} AddrsWereGiven(states: seq<State>, actions: seq<Action>, i: nat, p: PeerId)
    returns (j: nat)
    requires IsRun(states, actions) && i < |states| && p in states[i].peers
    ensures j in Givings(actions, i, p) && states[i].peers[p] in states[i].handlers
    ensures j < i && actions[j].AddPeer? && states[i].handlers[states[i].peers[p]].addrs == actions[j].addrs
    decreases i
  {
    assert i > 0;
    Stepped(states, actions, i);
    AddrsStep(states[i - 1], actions[i - 1], states[i], p);
    if Gives(actions[i - 1], p) {
      j := i - 1;
    } else {
      j := AddrsWereGiven(states, actions, i - 1, p);
    }
    GivenBefore(actions, j, i, p);
  }

  /** In every run: a registered peer has the addresses that AddPeer gave for it last. */
  lemma AddrsAreLatest(states: seq<State>, actions: seq<Action>, i: nat, p: PeerId)
    returns (j: nat)
    requires IsRun(states, actions) && i < |states| && p in states[i].peers
    ensures LastGiven(actions, j, i, p) && states[i].peers[p] in states[i].handlers
    ensures states[i].handlers[states[i].peers[p]].addrs == actions[j].addrs
  {
    j := AddrsWereGiven(states, actions, i, p);
  }

  lemma DialStep(s: State, a: Action, s': State, id: HandlerId)
    requires s' in Successors(s, a) && a.Run? && a.t == Reconnecting(id)
    ensures id in s.handlers && Dialling(id, s.handlers[id].addrs) in s'.tasks
  {
    var next := Dialling(id, s.handlers[id].addrs);
    assert next in Produced(s, a);
    TaskKept(s, a, next);
  }

  /** In every run: a reconnect of a registered peer dials the addresses given last. */
  lemma DialsLatest(states: seq<State>, actions: seq<Action>, i: nat, p: PeerId)
    returns (j: nat)
    requires IsRun(states, actions) && i < |actions| && p in states[i].peers
    requires actions[i].Run? && actions[i].t == Reconnecting(states[i].peers[p])
    ensures LastGiven(actions, j, i, p)
    ensures Dialling(states[i].peers[p], actions[j].addrs) in states[i + 1].tasks
  {
    j := AddrsAreLatest(states, actions, i, p);
    Stepped(states, actions, i + 1);
    DialStep(states[i], actions[i], states[i + 1], states[i].peers[p]);
  }

  // ---------------------------------------------------------------- how a reconnect ends

  /** A reconnect of handler `id`, in any of its sections. */
  predicate Reconnects(t: Task, id: HandlerId) { Flies(t, id) || t == Retrying(id) }

  ghost predicate Underway(s: State, id: HandlerId) { exists t :: t in s.tasks && Reconnects(t, id) }

  /** The step is the stopIfConnected at the end of a reconnect of `id`. */
  predicate Checks(a: Action, id: HandlerId) { a.Run? && (a.t == Dialled(id) || a.t == Retrying(id)) }

  lemma FlightIsUnderway(s: State, id: HandlerId)
    requires InFlight(s, id)
    ensures Underway(s, id)
  {
    var t :| t in s.tasks && Flies(t, id);
    assert Reconnects(t, id);
  }

  lemma FailureGoesOn(s: State, a: Action, s': State, id: HandlerId)
    requires s' in Successors(s, a) && a.Run? && a.t == DialFailed(id)
    ensures Underway(s', id)
  {
    assert Retrying(id) in Produced(s, a);
    TaskKept(s, a, Retrying(id));
    assert Reconnects(Retrying(id), id);
  }

  lemma RetryWaits(s: State, a: Action, s': State, id: HandlerId)
    requires s' in Successors(s, a) && Retrying(id) in s.tasks && !Checks(a, id)
    ensures Underway(s', id)
  {
    TaskKept(s, a, Retrying(id));
    assert Reconnects(Retrying(id), id);
  }

  lemma FlightContinues(s: State, a: Action, s': State, id: HandlerId, t: Task)
    requires s' in Successors(s, a) && t in s.tasks && Flies(t, id) && !(a.Run? && a.t == t)
    ensures Underway(s', id)
  {
    FlightGoesOn(s, a, id, t);
    FlightIsUnderway(s', id);
  }

  lemma DialContinues(s: State, a: Action, s': State, id: HandlerId)
    requires s' in Successors(s, a) && a.Run? && a.t == Reconnecting(id)
    ensures Underway(s', id)
  {
    DialFlies(s, a, id);
    FlightIsUnderway(s', id);
  }

  lemma ReconnectGoesOn(s: State, a: Action, s': State, id: HandlerId)
    requires s' in Successors(s, a) && Underway(s, id) && !Checks(a, id)
    ensures Underway(s', id)
  {
    var t :| t in s.tasks && Reconnects(t, id);
    if t == Retrying(id) {
      RetryWaits(s, a, s', id);
    } else if !(a.Run? && a.t == t) {
      FlightContinues(s, a, s', id, t);
    } else if t.Reconnecting? {
      DialContinues(s, a, s', id);
    } else {
      FailureGoesOn(s, a, s', id);
    }
  }

  /** The check of a reconnect of `id` has run after step `i` and before step `j`. */
  predicate ChecksBetween(actions: seq<Action>, i: nat, j: nat, id: HandlerId)
    requires j <= |actions|
  {
    exists k :: i < k < j && Checks(actions[k], id)
  }

  /** Either a reconnect of `id` is under way at `j`, or one has run its check since step `i`. */
  ghost predicate Checked(states: seq<State>, actions: seq<Action>, i: nat, j: nat, id: HandlerId)
    requires j <= |actions| < |states|
  {
    Underway(states[j], id) || ChecksBetween(actions, i, j, id)
  }

  ghost function Reconnections(states: seq<State>, actions: seq<Action>, i: nat, j: nat): iset<HandlerId>
    requires j <= |actions| < |states|
  {
    iset id: HandlerId | Checked(states, actions, i, j, id)
  }

  lemma CheckedStep(states: seq<State>, actions: seq<Action>, i: nat, j: nat, id: HandlerId)
    requires 0 < j <= |actions| < |states| && i < j - 1 && states[j] in Successors(states[j - 1], actions[j - 1])
    requires id in Reconnections(states, actions, i, j - 1)
    ensures id in Reconnections(states, actions, i, j)
  {
    if Checks(actions[j - 1], id) {
      assert ChecksBetween(actions, i, j, id);
    } else if Underway(states[j - 1], id) {
      ReconnectGoesOn(states[j - 1], actions[j - 1], states[j], id);
    } else {
      var k :| i < k < j - 1 && Checks(actions[k], id);
      assert ChecksBetween(actions, i, j, id);
    }
  }

  lemma FiredIsUnderway(states: seq<State>, actions: seq<Action>, j: nat, id: HandlerId)
    requires 0 < j <= |actions| < |states| && states[j] in Successors(states[j - 1], actions[j - 1])
    requires actions[j - 1] == Fire(id)
    ensures id in Reconnections(states, actions, j - 1, j)
  {
    FiredFlies(states[j - 1], id);
    FlightIsUnderway(states[j], id);
  }

  lemma {:induction false} FiredReconnects(states: seq<State>, actions: seq<Action>, i: nat, j: nat, id: HandlerId)
    requires IsRun(states, actions) && i < j < |states| && actions[i] == Fire(id)
    ensures id in Reconnections(states, actions, i, j)
    decreases j
  {
    Stepped(states, actions, j);
    if i == j - 1 {
      FiredIsUnderway(states, actions, j, id);
    } else {
      FiredReconnects(states, actions, i, j - 1, id);
      CheckedStep(states, actions, i, j, id);
    }
  }

  /** In every run: a reconnect is not over before its stopIfConnected, whether the dial failed or not. */
  lemma ReconnectEndsWithCheck(states: seq<State>, actions: seq<Action>, i: nat, j: nat, id: HandlerId)
    requires IsRun(states, actions) && i < j < |states| && actions[i] == Fire(id)
    ensures Underway(states[j], id) || ChecksBetween(actions, i, j, id)
  {
    FiredReconnects(states, actions, i, j, id);
  }

  // ---------------------------------------------------------------- a connection ends redialling

  /** Before Start there are no timers, no notifications and no goroutines of handlers. */
  ghost predicate Dormant(s: State) {
    s.service == Init ==>
      && !s.subscribed
      && (forall id :: id in s.handlers ==> s.handlers[id].timer == Absent)
      && (forall t :: t in s.tasks ==> t.StopSection?)
  }

  lemma StepKeepsDormant(s: State, a: Action, s': State)
    requires s' in Successors(s, a) && Dormant(s)
    ensures Dormant(s')
  {
    if s'.service == Init {
      forall id | id in s'.handlers
        ensures s'.handlers[id].timer == Absent
      {
        if id in s.handlers {
          HandlersFrame(s, a, id);
        } else {
          NewHandlersFrame(s, a, id);
        }
      }
      forall t | t in s'.tasks
        ensures t.StopSection?
      {
        TaskKept(s, a, t);
      }
    }
  }

  /** If peer `p` is connected and still has a timer, word of the connection is on its way to the handler. */
  ghost predicate Calmed(s: State, p: PeerId)
    requires Linked(s) && p in s.peers
  {
    Connected(s, p) && s.handlers[s.peers[p]].timer != Absent ==>
      ConnectedEvent(p) in s.tasks || Stopping(s.peers[p]) in s.tasks
  }

  ghost predicate AllCalmed(s: State)
    requires Linked(s)
  {
    s.service == Running && s.subscribed ==> forall p :: p in s.peers ==> Calmed(s, p)
  }

  lemma TimerBefore(s: State, a: Action, s': State, p: PeerId)
    requires s' in Successors(s, a) && Linked(s) && p in s.peers && Connected(s, p)
    requires s.peers[p] in s'.handlers && s'.handlers[s.peers[p]].timer != Absent
    ensures s.handlers[s.peers[p]].timer != Absent
  {
    if s.handlers[s.peers[p]].timer == Absent {
      TimerAppears(s, a, s', s.peers[p]);
    }
  }

  lemma OpeningCalms(s: State, a: Action, s': State, p: PeerId)
    requires s' in Successors(s, a) && s.subscribed && !Connected(s, p) && Connected(s', p)
    ensures ConnectedEvent(p) in s'.tasks
  {
    assert a == OpenConn(p);
    assert ConnectedEvent(p) in Produced(s, a);
    TaskKept(s, a, ConnectedEvent(p));
  }

  lemma WordArrives(s: State, a: Action, s': State, p: PeerId)
    requires s' in Successors(s, a) && s.subscribed && p in s.peers && ConnectedEvent(p) in s.tasks
    ensures ConnectedEvent(p) in s'.tasks || Stopping(s.peers[p]) in s'.tasks
  {
    if a.Run? && a.t == ConnectedEvent(p) {
      assert Stopping(s.peers[p]) in Produced(s, a);
      TaskKept(s, a, Stopping(s.peers[p]));
    } else {
      TaskKept(s, a, ConnectedEvent(p));
    }
  }

  lemma StopWaits(s: State, a: Action, s': State, id: HandlerId)
    requires s' in Successors(s, a) && Stopping(id) in s.tasks && id in s.handlers
    requires Connected(s, s.handlers[id].peer) && id in s'.handlers && s'.handlers[id].timer != Absent
    ensures Stopping(id) in s'.tasks
  {
    if a.Run? && a.t == Stopping(id) {
      FindingEnds(s, a, s.handlers[id].peer, id);
    } else {
      TaskKept(s, a, Stopping(id));
    }
  }

  lemma StillCalmed(s: State, a: Action, s': State, p: PeerId)
    requires s' in Successors(s, a) && Linked(s) && Linked(s') && s.subscribed && p in s.peers && Calmed(s, p)
    requires p in s'.peers && s'.peers[p] == s.peers[p]
    ensures Calmed(s', p)
  {
    if Connected(s', p) && s'.handlers[s.peers[p]].timer != Absent {
      if !Connected(s, p) {
        OpeningCalms(s, a, s', p);
      } else {
        TimerBefore(s, a, s', p);
        if ConnectedEvent(p) in s.tasks {
          WordArrives(s, a, s', p);
        } else {
          StopWaits(s, a, s', s.peers[p]);
        }
      }
    }
  }

  lemma StepKeepsCalm(s: State, a: Action, s': State)
    requires s' in Successors(s, a) && Linked(s) && Linked(s') && Dormant(s) && AllCalmed(s)
    ensures AllCalmed(s')
  {
    forall p | s'.service == Running && s'.subscribed && p in s'.peers
      ensures Calmed(s', p)
    {
      if p !in s.peers {
        assert s'.handlers[s'.peers[p]].timer == Absent;
      } else if s.service == Running && s.subscribed {
        StillCalmed(s, a, s', p);
      } else {
        HandlersFrame(s, a, s.peers[p]);
        assert s'.handlers[s'.peers[p]].timer == Absent;
      }
    }
  }

  lemma {:induction false} RunsStayCalm(states: seq<State>, actions: seq<Action>, i: nat)
    requires IsRun(states, actions) && i < |states|
    ensures Linked(states[i]) && Dormant(states[i]) && AllCalmed(states[i])
    decreases i
  {
    RunsKeepInvariant(states, actions, i);
    if i > 0 {
      RunsStayCalm(states, actions, i - 1);
      Stepped(states, actions, i);
      StepKeepsDormant(states[i - 1], actions[i - 1], states[i]);
      StepKeepsCalm(states[i - 1], actions[i - 1], states[i]);
    }
  }

  /**
   In every state of every run: while the service runs and hears of network events, a registered peer that is connected
   has no timer, or else a connect notification or a stop-if-connected step for it is pending.
   */
  lemma ConnectedAreCalmed(states: seq<State>, actions: seq<Action>, i: nat, p: PeerId)
    requires IsRun(states, actions) && i < |states|
    requires states[i].service == Running && states[i].subscribed && p in states[i].peers && Connected(states[i], p)
    ensures states[i].peers[p] in states[i].handlers
    ensures || states[i].handlers[states[i].peers[p]].timer == Absent
            || ConnectedEvent(p) in states[i].tasks || Stopping(states[i].peers[p]) in states[i].tasks
  {
    RunsStayCalm(states, actions, i);
    assert Calmed(states[i], p);
  }

  /** A stop-if-connected section that finds the peer removes the timer and starts the backoff over. */
  lemma FoundStartsOver(s: State, a: Action, s': State, id: HandlerId)
    requires s' in Successors(s, a) && (Checks(a, id) || (a.Run? && a.t == Stopping(id)))
    requires id in s.handlers && Connected(s, s.handlers[id].peer)
    ensures id in s'.handlers && s'.handlers[id].timer == Absent
    ensures s.handlers[id].timer != Absent ==> s'.handlers[id].nextDelay == 5_000_000_000
  {}
}
