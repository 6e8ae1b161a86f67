/**
 The peering service (peering/peering.go) as code on its fields and its handlers. Each operation is one step of the
 protocol.
 */
module PeeringServices {
  import opened PeerHandlers
  import opened Peering

  /**
   Every handler there has been, by the pointer that peers and goroutines hold. No two pointers are the same handler.
   */
  class HandlerHeap {
    var handlers: map<HandlerId, PeerHandler>
    ghost var view: map<HandlerId, Handler>
    ghost var Repr: set<object>

    constructor ()
      ensures Valid() && fresh(Repr) && view == map[]
    {
      handlers, view, Repr := map[], map[], {this};
    }

    /** The handlers are what `v` says, and no two of them are the same object. */
    ghost predicate Shows(v: map<HandlerId, Handler>)
      reads this, Repr
    {
      && handlers.Keys == v.Keys
      && (forall id :: id in handlers ==> handlers[id] in Repr && handlers[id].View() == v[id])
      && (forall a, b :: a in handlers && b in handlers && a != b ==> handlers[a] != handlers[b])
    }

    ghost function Views(): iset<map<HandlerId, Handler>>
      reads this, Repr
    {
      iset v | Shows(v)
    }

    ghost predicate Valid()
      reads this, Repr
    {
      this in Repr && view in Views()
    }

    /** Handler `id` is cancelled and has no timer. */
    ghost predicate Halted(id: HandlerId)
      reads this, Repr
    {
      id in handlers && handlers[id] in Repr && handlers[id].cancelled && handlers[id].reconnectTimer == Absent
    }

    lemma Shown(id: HandlerId)
      requires Valid() && id in view
      ensures id in handlers && handlers[id] in Repr && handlers[id].View() == view[id]
    {
      assert Shows(view);
    }

    /** A new handler, whose context is cancelled at once if the service has stopped. */
    method New(id: HandlerId, p: PeerId, addrs: Addrs, stopped: bool)
      requires Valid() && id !in handlers
      modifies this
      ensures Valid() && fresh(Repr - old(Repr)) && view == old(view)[id := NewHandler(p, addrs).(cancelled := stopped)]
    {
      var handler := new PeerHandler(p, addrs);
      if stopped {
        handler.cancelled := true;
      }
      handlers, Repr := handlers[id := handler], Repr + {handler};
      view := view[id := NewHandler(p, addrs).(cancelled := stopped)];
      assert Shows(view);
    }

    method Stop(id: HandlerId)
      requires Valid() && id in view && ValidHandler(view[id])
      modifies Repr
      ensures Valid() && Repr == old(Repr) && view == old(view)[id := StopHandler(old(view)[id])]
      ensures Halted(id)
    {
      handlers[id].Stop();
      view := view[id := StopHandler(view[id])];
      assert Shows(view);
    }

    method SetAddrs(id: HandlerId, addrs: Addrs)
      requires Valid() && id in view && ValidHandler(view[id])
      modifies Repr
      ensures Valid() && Repr == old(Repr) && view == old(view)[id := old(view)[id].(addrs := addrs)]
    {
      handlers[id].SetAddrs(addrs);
      view := view[id := view[id].(addrs := addrs)];
      assert Shows(view);
    }

    /** The section that the goroutine goes on to, if any. */
    method Next(t: Task) returns (next: multiset<Task>)
      requires Valid() && HasHandler(t) && t.h in view
      ensures next == NextSection(t, view[t.h])
    {
      if t.Reconnecting? {
        return multiset{Dialling(t.h, handlers[t.h].addrs)};
      } else if t.DialFailed? {
        return multiset{Retrying(t.h)};
      }
      return multiset{};
    }

    method Section(t: Task, connected: bool, draw: Draw)
      requires Valid() && HasHandler(t) && t.h in view && ValidHandler(view[t.h])
      requires ValidDraw(view[t.h].nextDelay, draw)
      modifies Repr
      ensures Valid() && Repr == old(Repr) && view == old(view)[t.h := HandlerAfter(t, old(view)[t.h], connected, draw)]
    {
      ghost var after := HandlerAfter(t, view[t.h], connected, draw);
      HandlerSection(handlers[t.h], t, connected, draw);
      view := view[t.h := after];
      assert Shows(view);
    }
  }

  /** What a goroutine of handler `h` does under the handler's lock. */
  method HandlerSection(h: PeerHandler, t: Task, connected: bool, draw: Draw)
    requires HasHandler(t) && ValidHandler(h.View()) && ValidDraw(h.nextDelay, draw)
    modifies h
    ensures h.View() == HandlerAfter(t, old(h.View()), connected, draw)
  {
    match t {
      case Starting(_) => h.StartIfDisconnectedNow(connected, draw);
      case Stopping(_) => h.StopIfConnectedNow(connected);
      case Reconnecting(_) =>
      case Dialling(_, _) =>
      case DialFailed(_) => h.DialFailed(draw);
      case Dialled(_) => h.StopIfConnectedNow(connected);
      case Retrying(_) => h.StopIfConnectedNow(connected);
    }
  }

  class PeeringService {
    const heap: HandlerHeap
    var service: ServiceState
    var subscribed: bool
    var peers: map<PeerId, HandlerId>
    var protected: set<PeerId>
    /** Goroutines that have been started and notifications that are on their way. */
    var tasks: multiset<Task>
    ghost var conns: multiset<PeerId>

    constructor ()
      ensures Valid() && View() == INITIAL && fresh(heap.Repr)
    {
      heap := new HandlerHeap();
      service, subscribed, peers, protected, tasks, conns := Init, false, map[], {}, multiset{}, multiset{};
      assert ReachedBy([INITIAL], [], INITIAL);
    }

    ghost function View(): State
      reads this, heap
    {
      State(service, subscribed, peers, heap.view, conns, protected, tasks)
    }

    /** The service is in a state of some run of the protocol. */
    ghost predicate Valid()
      reads this, heap, heap.Repr
    {
      this !in heap.Repr && heap.Valid() && Reachable(View())
    }

    /** So everything that runs keep holds before and after each operation. */
    lemma Keeps()
      requires Valid()
      ensures Invariant(View())
    {
      ReachableKeeps(View());
    }

    /** The loop of Start over the registered peers. */
    method StartHandlers()
      requires HandlersFit(peers, heap.view)
      modifies this`tasks
      ensures tasks == old(tasks) + multiset(Starts(peers, peers.Keys))
    {
      var todo := peers.Keys;
      while todo != {}
        invariant todo <= peers.Keys
        invariant tasks == old(tasks) + multiset(Starts(peers, peers.Keys - todo))
        decreases todo
      {
        var p :| p in todo;
        StartsGrow(peers, peers.Keys - todo, p, heap.view);
        OneLess(peers.Keys, todo, p);
        tasks := tasks + multiset{Starting(peers[p])};
        todo := todo - {p};
      }
      NoneLeft(peers.Keys);
    }

    /** False when the service has already been stopped. */
    method Start() returns (ok: bool)
      requires Valid()
      modifies this
      ensures Valid() && View() in Successors(old(View()), Action.Start)
      ensures ok == (old(service) != Stopped)
      ensures if old(service) == Init then service == Running && subscribed else service == old(service)
      ensures old(service) == Init ==> AllStarting(peers, tasks)
    {
      ghost var s := View();
      if service != Init {
        StartIgnored(s);
        return service == Running;
      }
      ReachablePeers(s);
      StartHandlers();
      subscribed := true;
      service := Running;
      StartTaken(s, View());
      return true;
    }

    /** Stop begins by leaving the network's list of listeners, before it takes the lock. */
    method StopNotify()
      requires Valid()
      modifies this
      ensures Valid() && View() in Successors(old(View()), Action.StopNotify)
    {
      ghost var s := View();
      subscribed := false;
      tasks := tasks + multiset{StopSection};
      StopNotifyTaken(s, View());
    }

    /** The loop of Stop over the registered peers. */
    method StopHandlers()
      requires this !in heap.Repr && heap.Valid() && HandlersFit(peers, heap.view)
      modifies heap.Repr
      ensures heap.Valid() && heap.Repr == old(heap.Repr)
      ensures heap.view == StopSome(old(heap.view), Registered(old(View())))
    {
      ghost var hs, ids := heap.view, {};
      var todo := peers.Keys;
      NoneStopped(hs);
      while todo != {}
        invariant todo <= peers.Keys && ids == HandlersOf(peers, peers.Keys - todo)
        invariant heap.Valid() && heap.Repr == old(heap.Repr) && heap.view == StopSome(hs, ids)
        decreases todo
      {
        var p :| p in todo;
        OneMoreStopped(hs, ids, peers[p]);
        HandlersOfMore(peers, peers.Keys - todo, p);
        OneLess(peers.Keys, todo, p);
        heap.Stop(peers[p]);
        todo, ids := todo - {p}, ids + {peers[p]};
      }
      NoneLeft(peers.Keys);
    }

    /** The branch of Stop for a service that has not stopped yet. */
    method StopNow()
      requires this !in heap.Repr && heap.Valid() && HandlersFit(peers, heap.view)
      modifies this`service, this`tasks, heap.Repr
      ensures heap.Valid() && heap.Repr == old(heap.Repr)
      ensures View() == old(View()).(service := Stopped, tasks := old(tasks) - multiset{StopSection},
                                     handlers := StopSome(old(heap.view), Registered(old(View()))))
    {
      StopHandlers();
      service, tasks := Stopped, tasks - multiset{StopSection};
    }

    /** The part of Stop under the lock. */
    method StopLocked(draw: Draw)
      requires Valid() && StopSection in tasks
      modifies this, heap.Repr
      ensures Valid() && heap.Repr == old(heap.Repr) && View() in Successors(old(View()), Run(StopSection, draw))
      ensures service == Stopped && peers == old(peers)
      ensures old(service) != Stopped ==> forall p :: p in peers ==> heap.Halted(peers[p])
    {
      ghost var s := View();
      if service != Stopped {
        ReachablePeers(s);
        StopNow();
        AllHalted(s);
        StopTaken(s, View(), draw);
      } else {
        tasks := tasks - multiset{StopSection};
        StopIgnored(s, View(), draw);
      }
    }

    lemma AllHalted(s: State)
      requires heap.Valid() && HandlersFit(s.peers, s.handlers) && heap.view == StopSome(s.handlers, Registered(s))
      ensures forall p :: p in s.peers ==> heap.Halted(s.peers[p])
    {
      forall p | p in s.peers
        ensures heap.Halted(s.peers[p])
      {
        assert s.peers[p] in Registered(s);
        heap.Shown(s.peers[p]);
      }
    }

    /** The branch of AddPeer for a peer that is not registered yet. */
    method AddNewPeer(p: PeerId, addrs: Addrs, id: HandlerId)
      requires this !in heap.Repr && heap.Valid() && id !in heap.view
      modifies this`peers, this`protected, this`tasks, heap
      ensures this !in heap.Repr && heap.Valid() && fresh(heap.Repr - old(heap.Repr))
      ensures peers == old(peers)[p := id] && protected == old(protected) + {p}
      ensures heap.view == old(heap.view)[id := NewHandler(p, addrs).(cancelled := service == Stopped)]
      ensures tasks == if service == Running then old(tasks) + multiset{Starting(id)} else old(tasks)
    {
      protected := protected + {p};
      heap.New(id, p, addrs, service == Stopped);
      peers := peers[p := id];
      if service == Running {
        tasks := tasks + multiset{Starting(id)};
      }
    }

    method AddPeer(p: PeerId, addrs: Addrs, id: HandlerId)
      requires Valid() && id !in heap.view
      modifies this, heap.Repr
      ensures Valid() && fresh(heap.Repr - old(heap.Repr))
      ensures View() in Successors(old(View()), Action.AddPeer(p, addrs, id))
      ensures Added(View(), p, addrs) && peers == if p in old(peers) then old(peers) else old(peers)[p := id]
    {
      ghost var s := View();
      if p in peers {
        ReachablePeer(s, p);
        heap.SetAddrs(peers[p], addrs);
        AddrsTaken(s, View(), p, addrs, id);
      } else {
        AddNewPeer(p, addrs, id);
        AddTaken(s, View(), p, addrs, id);
      }
    }

    method RemovePeer(p: PeerId)
      requires Valid()
      modifies this, heap.Repr
      ensures Valid() && heap.Repr == old(heap.Repr) && View() in Successors(old(View()), Action.RemovePeer(p))
      ensures peers == old(peers) - {p} && p !in protected
      ensures p in old(peers) ==> heap.Halted(old(peers)[p])
    {
      ghost var s := View();
      if p in peers {
        ReachablePeer(s, p);
        protected := protected - {p};
        heap.Stop(peers[p]);
        peers := peers - {p};
        RemoveTaken(s, View(), p);
      } else {
        RemoveIgnored(s, p);
      }
    }

    /** The goroutine that a notification starts, if its peer is registered. */
    method Response(t: Task) returns (started: multiset<Task>)
      requires t.ConnectedEvent? || t.DisconnectedEvent?
      ensures started == if t.p !in peers then multiset{}
                         else multiset{if t.ConnectedEvent? then Stopping(peers[t.p]) else Starting(peers[t.p])}
    {
      started := multiset{};
      if t.p in peers {
        if t.ConnectedEvent? {
          started := multiset{Stopping(peers[t.p])};
        } else {
          started := multiset{Starting(peers[t.p])};
        }
      }
    }

    /** netNotifee: a Connected or Disconnected notification takes the lock. */
    method Notified(t: Task, draw: Draw)
      requires Valid() && t in tasks && (t.ConnectedEvent? || t.DisconnectedEvent?)
      modifies this
      ensures Valid() && View() in Successors(old(View()), Run(t, draw))
      ensures Answered(peers, tasks, t)
    {
      ghost var s := View();
      var started := Response(t);
      tasks := tasks - multiset{t} + started;
      NotifyTaken(s, View(), t, draw);
    }

    /** A goroutine runs its next section and goes on to the one after it. `connected` is what the network answers. */
    method RunSection(t: Task, connected: bool, draw: Draw)
      requires Valid() && t in tasks && HasHandler(t) && !t.Dialling? && t.h in heap.view
      requires ValidDraw(heap.view[t.h].nextDelay, draw) && connected == Connected(View(), heap.view[t.h].peer)
      modifies this, heap.Repr
      ensures Valid() && heap.Repr == old(heap.Repr) && View() in Successors(old(View()), Run(t, draw))
    {
      ghost var s := View();
      ReachableHandler(s, t.h);
      var next := heap.Next(t);
      tasks := tasks - multiset{t} + next;
      heap.Section(t, connected, draw);
      SectionTaken(s, View(), t, draw);
    }
  }

  ghost function Starts(peers: map<PeerId, HandlerId>, ps: set<PeerId>): set<Task>
    requires ps <= peers.Keys
  {
    set p | p in ps :: Starting(peers[p])
  }

  /** No two peers share a handler, so each start is a new one. */
  lemma StartsGrow(peers: map<PeerId, HandlerId>, ps: set<PeerId>, p: PeerId, handlers: map<HandlerId, Handler>)
    requires ps <= peers.Keys && p in peers && p !in ps
    requires forall q :: q in peers ==> peers[q] in handlers && handlers[peers[q]].peer == q
    ensures multiset(Starts(peers, ps + {p})) == multiset(Starts(peers, ps)) + multiset{Starting(peers[p])}
  {
    assert Starts(peers, ps + {p}) == Starts(peers, ps) + {Starting(peers[p])};
    assert Starting(peers[p]) !in Starts(peers, ps);
  }

  /** The handlers after those in `ids` have been stopped. */
  function StopSome(hs: map<HandlerId, Handler>, ids: set<HandlerId>): map<HandlerId, Handler> {
    map id | id in hs :: if id in ids then StopHandler(hs[id]) else hs[id]
  }

  lemma HandlersOfMore(peers: map<PeerId, HandlerId>, ps: set<PeerId>, p: PeerId)
    requires ps <= peers.Keys && p in peers
    ensures HandlersOf(peers, ps + {p}) == HandlersOf(peers, ps) + {peers[p]}
  {}

  lemma NoneStopped(hs: map<HandlerId, Handler>)
    ensures StopSome(hs, {}) == hs
  {}

  lemma OneMoreStopped(hs: map<HandlerId, Handler>, ids: set<HandlerId>, id: HandlerId)
    requires id in hs && ValidHandler(hs[id])
    ensures var some := StopSome(hs, ids);
            ValidHandler(some[id]) && some[id := StopHandler(some[id])] == StopSome(hs, ids + {id})
  {}

  lemma StartsAreProduced(s: State)
    ensures Starts(s.peers, s.peers.Keys) == set h | h in Registered(s) :: Starting(h)
  {
    forall p | p in s.peers
      ensures s.peers[p] in Registered(s)
    {
    }
  }

  lemma OneLess(keys: set<PeerId>, todo: set<PeerId>, p: PeerId)
    requires p in todo && todo <= keys
    ensures keys - (todo - {p}) == (keys - todo) + {p}
  {}

  lemma NoneLeft(keys: set<PeerId>)
    ensures keys - {} == keys
  {}

  lemma NoTasks(tasks: multiset<Task>, more: multiset<Task>)
    ensures tasks - multiset{} + more == tasks + more && tasks + multiset{} == tasks
  {}

  lemma ReachableLinked(s: State)
    requires Reachable(s)
    ensures Linked(s)
  {
    ReachableKeeps(s);
  }

  /** Each peer has its own handler, and that is in order. */
  ghost predicate HandlersFit(peers: map<PeerId, HandlerId>, hs: map<HandlerId, Handler>) {
    forall p :: p in peers ==> peers[p] in hs && hs[peers[p]].peer == p && ValidHandler(hs[peers[p]])
  }

  lemma ReachablePeers(s: State)
    requires Reachable(s)
    ensures HandlersFit(s.peers, s.handlers)
  {
    ReachableKeeps(s);
  }

  lemma ReachableHandler(s: State, id: HandlerId)
    requires Reachable(s) && id in s.handlers
    ensures ValidHandler(s.handlers[id])
  {
    ReachableKeeps(s);
  }

  lemma ReachablePeer(s: State, p: PeerId)
    requires Reachable(s) && p in s.peers
    ensures s.peers[p] in s.handlers && ValidHandler(s.handlers[s.peers[p]])
  {
    ReachableKeeps(s);
  }

  /** A state that differs from `s` as the step has it comes next in a run. */
  lemma StepTaken(s: State, a: Action, s': State)
    requires Reachable(s) && Linked(s) && Enabled(s, a)
    requires s'.service == ServiceAfter(s, a) && s'.subscribed == SubscribedAfter(s, a) && s'.conns == ConnsAfter(s, a)
    requires s'.peers == PeersAfter(s, a) && s'.protected == ProtectedAfter(s, a)
    requires s'.handlers == HandlersAfter(s, a) && s'.tasks == s.tasks - Consumed(a) + Produced(s, a)
    ensures s' in Successors(s, a) && Reachable(s')
  {
    ReachNext(s, a, s');
  }

  // What each operation makes of the state as a whole is a step.

  /** A startIfDisconnected is pending for every peer. */
  ghost predicate AllStarting(peers: map<PeerId, HandlerId>, tasks: multiset<Task>) {
    forall p :: p in peers ==> Starting(peers[p]) in tasks
  }

  lemma StartsAreTasks(peers: map<PeerId, HandlerId>, tasks: multiset<Task>)
    ensures AllStarting(peers, tasks + multiset(Starts(peers, peers.Keys)))
  {
    forall p | p in peers
      ensures Starting(peers[p]) in tasks + multiset(Starts(peers, peers.Keys))
    {
      assert Starting(peers[p]) in Starts(peers, peers.Keys);
    }
  }

  lemma StartTaken(s: State, s': State)
    requires Reachable(s) && s.service == Init
    requires s' == s.(subscribed := true, service := Running,
                      tasks := s.tasks + multiset(Starts(s.peers, s.peers.Keys)))
    ensures s' in Successors(s, Action.Start) && Reachable(s') && AllStarting(s'.peers, s'.tasks)
  {
    StartsAreTasks(s.peers, s.tasks);
    ReachableLinked(s);
    StartsAreProduced(s);
    NoTasks(s.tasks, Produced(s, Action.Start));
    StepTaken(s, Action.Start, s');
  }

  lemma StartIgnored(s: State)
    requires Reachable(s) && s.service != Init
    ensures s in Successors(s, Action.Start)
  {
    ReachableLinked(s);
    NoTasks(s.tasks, multiset{});
    StepTaken(s, Action.Start, s);
  }

  lemma StopNotifyTaken(s: State, s': State)
    requires Reachable(s) && s' == s.(subscribed := false, tasks := s.tasks + multiset{StopSection})
    ensures s' in Successors(s, Action.StopNotify) && Reachable(s')
  {
    ReachableLinked(s);
    NoTasks(s.tasks, multiset{StopSection});
    StepTaken(s, Action.StopNotify, s');
  }

  lemma StopTaken(s: State, s': State, draw: Draw)
    requires Reachable(s) && StopSection in s.tasks && s.service != Stopped
    requires s' == s.(service := Stopped, tasks := s.tasks - multiset{StopSection},
                      handlers := StopSome(s.handlers, Registered(s)))
    ensures s' in Successors(s, Run(StopSection, draw)) && Reachable(s')
  {
    ReachableLinked(s);
    NoTasks(s'.tasks, multiset{});
    StepTaken(s, Run(StopSection, draw), s');
  }

  lemma StopIgnored(s: State, s': State, draw: Draw)
    requires Reachable(s) && StopSection in s.tasks && s.service == Stopped
    requires s' == s.(tasks := s.tasks - multiset{StopSection})
    ensures s' in Successors(s, Run(StopSection, draw)) && Reachable(s')
  {
    ReachableLinked(s);
    NoTasks(s'.tasks, multiset{});
    StepTaken(s, Run(StopSection, draw), s');
  }

  /** Peer `p` is registered with these addresses and protected. */
  predicate Added(s: State, p: PeerId, addrs: Addrs) {
    p in s.peers && p in s.protected && s.peers[p] in s.handlers && s.handlers[s.peers[p]].addrs == addrs
  }

  lemma AddrsTaken(s: State, s': State, p: PeerId, addrs: Addrs, id: HandlerId)
    requires Reachable(s) && id !in s.handlers && p in s.peers && s.peers[p] in s.handlers
    requires s' == s.(handlers := s.handlers[s.peers[p] := s.handlers[s.peers[p]].(addrs := addrs)])
    ensures s' in Successors(s, Action.AddPeer(p, addrs, id)) && Reachable(s') && Added(s', p, addrs)
  {
    ReachableKeeps(s);
    NoTasks(s.tasks, multiset{});
    StepTaken(s, Action.AddPeer(p, addrs, id), s');
  }

  lemma AddTaken(s: State, s': State, p: PeerId, addrs: Addrs, id: HandlerId)
    requires Reachable(s) && id !in s.handlers && p !in s.peers
    requires s' == s.(peers := s.peers[p := id], protected := s.protected + {p},
                      handlers := s.handlers[id := NewHandler(p, addrs).(cancelled := s.service == Stopped)],
                      tasks := if s.service == Running then s.tasks + multiset{Starting(id)} else s.tasks)
    ensures s' in Successors(s, Action.AddPeer(p, addrs, id)) && Reachable(s') && Added(s', p, addrs)
  {
    ReachableLinked(s);
    NoTasks(s.tasks, Produced(s, Action.AddPeer(p, addrs, id)));
    StepTaken(s, Action.AddPeer(p, addrs, id), s');
  }

  lemma RemoveTaken(s: State, s': State, p: PeerId)
    requires Reachable(s) && p in s.peers && s.peers[p] in s.handlers
    requires s' == s.(peers := s.peers - {p}, protected := s.protected - {p},
                      handlers := s.handlers[s.peers[p] := StopHandler(s.handlers[s.peers[p]])])
    ensures s' in Successors(s, Action.RemovePeer(p)) && Reachable(s')
  {
    ReachableLinked(s);
    NoTasks(s.tasks, multiset{});
    StepTaken(s, Action.RemovePeer(p), s');
  }

  lemma RemoveIgnored(s: State, p: PeerId)
    requires Reachable(s) && p !in s.peers
    ensures s in Successors(s, Action.RemovePeer(p)) && p !in s.protected
  {
    ReachableKeeps(s);
    NoTasks(s.tasks, multiset{});
    assert s.peers - {p} == s.peers;
    StepTaken(s, Action.RemovePeer(p), s);
  }

  /** The handler of the peer, if it is registered, is about to hear of it. */
  predicate Answered(peers: map<PeerId, HandlerId>, tasks: multiset<Task>, t: Task)
    requires t.ConnectedEvent? || t.DisconnectedEvent?
  {
    t.p in peers ==> (if t.ConnectedEvent? then Stopping(peers[t.p]) else Starting(peers[t.p])) in tasks
  }

  lemma NotifyTaken(s: State, s': State, t: Task, draw: Draw)
    requires Reachable(s) && t in s.tasks && (t.ConnectedEvent? || t.DisconnectedEvent?)
    requires s' == s.(tasks := s.tasks - multiset{t} +
                               if t.p !in s.peers then multiset{}
                               else if t.ConnectedEvent? then multiset{Stopping(s.peers[t.p])}
                               else multiset{Starting(s.peers[t.p])})
    ensures s' in Successors(s, Run(t, draw)) && Reachable(s') && Answered(s'.peers, s'.tasks, t)
  {
    ReachableLinked(s);
    StepTaken(s, Run(t, draw), s');
  }

  lemma SectionTaken(s: State, s': State, t: Task, draw: Draw)
    requires Reachable(s) && t in s.tasks && HasHandler(t) && !t.Dialling? && t.h in s.handlers
    requires ValidDraw(s.handlers[t.h].nextDelay, draw)
    requires s' == s.(tasks := s.tasks - multiset{t} + NextSection(t, s.handlers[t.h]),
                      handlers := s.handlers[t.h := RanHandler(s, t, draw)])
    ensures s' in Successors(s, Run(t, draw)) && Reachable(s')
  {
    ReachableLinked(s);
    StepTaken(s, Run(t, draw), s');
  }
}
