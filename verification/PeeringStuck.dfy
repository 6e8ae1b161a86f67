/** One run of the peering service that leaves a registered, disconnected peer with nobody to redial it. */
module PeeringStuck {
  import opened PeerHandlers
  import opened Peering

  const FIRST_WAIT: int := 7_500_000_000
  const NO_LUCK := Draw(0, 0)

  function OnePeer(timer: Timer, connected: bool, tasks: multiset<Task>): State {
    State(Running, true, map[0 := 0], map[0 := Handler(0, [], timer, FIRST_WAIT, 1, false)],
          if connected then multiset{0} else multiset{}, {0}, tasks)
  }

  lemma OnePeerLinked(timer: Timer, connected: bool, tasks: multiset<Task>)
    requires forall t :: t in tasks && HasHandler(t) ==> t.h == 0
    ensures Linked(OnePeer(timer, connected, tasks))
  {}

  const ADDED := State(Init, false, map[0 := 0], map[0 := NewHandler(0, [])], multiset{}, {0}, multiset{})
  const STARTED := ADDED.(service := Running, subscribed := true, tasks := multiset{Starting(0)})

  const ARMED := OnePeer(Armed(FIRST_WAIT), false, multiset{})
  const FIRED := OnePeer(Idle, false, multiset{Reconnecting(0)})
  const DIALLING := OnePeer(Idle, false, multiset{Dialling(0, [])})
  const OPENED := OnePeer(Idle, true, multiset{Dialling(0, []), ConnectedEvent(0)})
  const DIALLED := OnePeer(Idle, true, multiset{ConnectedEvent(0), Dialled(0)})
  const CLOSED := OnePeer(Idle, false, multiset{ConnectedEvent(0), Dialled(0), DisconnectedEvent(0)})
  const LOST := OnePeer(Idle, false, multiset{ConnectedEvent(0), DisconnectedEvent(0)})

  lemma AddStep()
    ensures Takes(INITIAL, AddPeer(0, [], 0), ADDED)
  {}

  lemma StartStep()
    ensures Takes(ADDED, Start, STARTED)
  {
    assert 0 in ADDED.peers && ADDED.peers[0] == 0;
    assert Registered(ADDED) == {0};
    assert (set h | h in Registered(ADDED) :: Starting(h)) == {Starting(0)};
  }

  lemma ArmStep()
    ensures Takes(STARTED, Run(Starting(0), NO_LUCK), ARMED)
  {
    assert NextDelay(INITIAL_DELAY, NO_LUCK) == FIRST_WAIT;
    assert RanHandler(STARTED, Starting(0), NO_LUCK) == ARMED.handlers[0];
    assert STARTED.tasks - multiset{Starting(0)} + multiset{} == ARMED.tasks;
    assert HandlersAfter(STARTED, Run(Starting(0), NO_LUCK)) == ARMED.handlers;
  }

  lemma FireStep()
    ensures Takes(ARMED, Fire(0), FIRED)
  {}

  lemma DialStep()
    ensures Takes(FIRED, Run(Reconnecting(0), NO_LUCK), DIALLING)
  {
    assert HandlersAfter(FIRED, Run(Reconnecting(0), NO_LUCK)) == DIALLING.handlers;
  }

  lemma OpenStep()
    ensures Takes(DIALLING, OpenConn(0), OPENED)
  {
    OnePeerLinked(Idle, false, DIALLING.tasks);
    assert DIALLING.tasks - multiset{} + multiset{ConnectedEvent(0)} == OPENED.tasks;
    assert DIALLING.conns + multiset{0} == OPENED.conns;
  }

  lemma SucceedStep()
    ensures Takes(OPENED, DialReturns(Dialling(0, []), true), DIALLED)
  {
    OnePeerLinked(Idle, true, OPENED.tasks);
    assert OPENED.tasks - multiset{Dialling(0, [])} + multiset{Dialled(0)} == DIALLED.tasks;
  }

  lemma CloseStep()
    ensures Takes(DIALLED, CloseConn(0), CLOSED)
  {
    OnePeerLinked(Idle, true, DIALLED.tasks);
    assert DIALLED.tasks - multiset{} + multiset{DisconnectedEvent(0)} == CLOSED.tasks;
    assert DIALLED.conns - multiset{0} == CLOSED.conns;
  }

  lemma LoseEnabled()
    ensures Linked(CLOSED) && Enabled(CLOSED, Run(Dialled(0), NO_LUCK))
  {
    OnePeerLinked(Idle, false, CLOSED.tasks);
    assert Dialled(0) in CLOSED.tasks;
  }

  lemma LoseApplied()
    requires Linked(CLOSED) && Enabled(CLOSED, Run(Dialled(0), NO_LUCK))
    ensures HandlersAfter(CLOSED, Run(Dialled(0), NO_LUCK)) == LOST.handlers
    ensures CLOSED.tasks - multiset{Dialled(0)} + multiset{} == LOST.tasks
  {
    assert RanHandler(CLOSED, Dialled(0), NO_LUCK) == CLOSED.handlers[0];
  }

  lemma LoseStep()
    ensures Takes(CLOSED, Run(Dialled(0), NO_LUCK), LOST)
  {
    LoseEnabled();
    LoseApplied();
  }

  lemma StartedReachable()
    ensures Reachable(STARTED)
  {
    assert ReachedBy([INITIAL], [], INITIAL);
    AddStep();
    ReachNext(INITIAL, AddPeer(0, [], 0), ADDED);
    StartStep();
    ReachNext(ADDED, Start, STARTED);
  }

  lemma ArmedReachable()
    ensures Reachable(ARMED)
  {
    StartedReachable();
    ArmStep();
    ReachNext(STARTED, Run(Starting(0), NO_LUCK), ARMED);
  }

  lemma OpenedReachable()
    ensures Reachable(OPENED)
  {
    ArmedReachable();
    FireStep();
    ReachNext(ARMED, Fire(0), FIRED);
    DialStep();
    ReachNext(FIRED, Run(Reconnecting(0), NO_LUCK), DIALLING);
    OpenStep();
    ReachNext(DIALLING, OpenConn(0), OPENED);
  }

  lemma LostReachable()
    ensures Reachable(LOST)
  {
    OpenedReachable();
    SucceedStep();
    ReachNext(OPENED, DialReturns(Dialling(0, []), true), DIALLED);
    CloseStep();
    ReachNext(DIALLED, CloseConn(0), CLOSED);
    LoseStep();
    ReachNext(CLOSED, Run(Dialled(0), NO_LUCK), LOST);
  }

  /**
   A peer can get stuck while the service is running: its timer fires, the dial succeeds, and the connection breaks
   before the reconnect looks again. The timer is left in place but is never reset, so later steps believe one is
   running.
   */
  lemma PeersCanGetStuck()
    ensures Reachable(LOST) && LOST.service == Running && LOST.subscribed && Linked(LOST) && Stuck(LOST, 0)
  {
    LostReachable();
    OnePeerLinked(Idle, false, LOST.tasks);
  }
}
