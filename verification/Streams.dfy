/**
 The registry of forwarded p2p streams (p2p/stream.go).

 Each stream is closed or reset by two copier goroutines and by any number of user requests, in any order; all of them
 end in Deregister under the registry's lock.
 */
module Streams {

  type PeerId = nat
  type StreamId = nat

  /**
   The registry under its lock: the peer of each registered stream, the number of streams per peer, and the peers
   tagged in the connection manager. `removed` lists the ids in the order in which they were deregistered.
   */
  datatype Registry = Registry(
    streams: map<StreamId, PeerId>,
    conns: map<PeerId, int>,
    nextID: StreamId,
    tagged: set<PeerId>,
    removed: seq<StreamId>)

  const EMPTY := Registry(map[], map[], 0, {}, [])

  function Count(conns: map<PeerId, int>, p: PeerId): int { if p in conns then conns[p] else 0 }

  function Registered(r: Registry, p: PeerId): Registry {
    r.(tagged := r.tagged + {p},
       conns := r.conns[p := Count(r.conns, p) + 1],
       streams := r.streams[r.nextID := p],
       nextID := r.nextID + 1)
  }

  function Deregistered(r: Registry, id: StreamId): Registry {
    if id !in r.streams then r
    else
      var p := r.streams[id];
      var n := Count(r.conns, p) - 1;
      var r' := r.(streams := r.streams - {id}, removed := r.removed + [id]);
      if n < 1 then r'.(conns := r.conns - {p}, tagged := r.tagged - {p}) else r'.(conns := r.conns[p := n])
  }

  class StreamRegistry {
    var streams: map<StreamId, PeerId>
    var conns: map<PeerId, int>
    var nextID: StreamId
    var tagged: set<PeerId>
    ghost var removed: seq<StreamId>

    constructor ()
      ensures View() == EMPTY
    {
      streams, conns, nextID, tagged, removed := map[], map[], 0, {}, [];
    }

    ghost function View(): Registry
      reads this
    {
      Registry(streams, conns, nextID, tagged, removed)
    }

    /** Returns the id that the stream keeps for its later Close or Reset, one that was never handed out before. */
    method Register(p: PeerId) returns (id: StreamId)
      requires Consistent(View())
      modifies this
      ensures Consistent(View()) && View() == Registered(old(View()), p)
      ensures id in streams && id !in old(streams) && id !in old(removed)
      ensures tagged == old(tagged) + {p} && Count(conns, p) == old(Count(conns, p)) + 1
      ensures StreamsOf(View(), p) == old(StreamsOf(View(), p)) + {id}
      ensures forall q :: q != p ==> StreamsOf(View(), q) == old(StreamsOf(View(), q))
    {
      RegisterKeeps(View(), p);
      RegisterStreams(View(), p);
      tagged := tagged + {p};
      conns := conns[p := if p in conns then conns[p] + 1 else 1];
      id := nextID;
      streams := streams[nextID := p];
      nextID := nextID + 1;
    }

    /**
     Of all the calls for one id only the first has an effect, and only the last stream of a peer takes the tag along.
     */
    method Deregister(id: StreamId)
      requires Consistent(View())
      modifies this
      ensures Consistent(View()) && View() == Deregistered(old(View()), id)
      ensures id !in streams && (id !in old(streams) ==> unchanged(this))
      ensures forall q :: StreamsOf(View(), q) == old(StreamsOf(View(), q)) - {id}
      ensures id in old(streams) ==>
                var p := old(streams)[id];
                && Count(conns, p) == old(Count(conns, p)) - 1
                && (p in tagged <==> old(StreamsOf(View(), p)) != {id})
    {
      DeregisterKeeps(View(), id);
      if id !in streams {
        return;
      }
      DeregisterStreams(View(), id);
      var p := streams[id];
      conns := conns[p := (if p in conns then conns[p] else 0) - 1];
      if conns[p] < 1 {
        conns := conns - {p};
        tagged := tagged - {p};
      }
      streams := streams - {id};
      removed := removed + [id];
      assert View() == Deregistered(old(View()), id) by {
        assert old(conns)[p := Count(old(conns), p) - 1] - {p} == old(conns) - {p};
      }
    }
  }

  // ---------------------------------------------------------------- what every interleaving keeps

  function StreamsOf(r: Registry, p: PeerId): set<StreamId> { set id | id in r.streams && r.streams[id] == p }

  ghost predicate CountRight(r: Registry, p: PeerId) {
    if p in r.conns then r.conns[p] == |StreamsOf(r, p)| > 0 else StreamsOf(r, p) == {}
  }

  ghost predicate CountsRight(r: Registry) { forall p :: CountRight(r, p) }

  ghost predicate TagsRight(r: Registry) { r.tagged == r.conns.Keys }

  /** Ids handed out so far are exactly those still registered and those removed, and no id is removed twice. */
  ghost predicate IdsRight(r: Registry) {
    && (forall id: StreamId :: id < r.nextID <==> id in r.streams || id in r.removed)
    && (forall id :: id in r.streams ==> id !in r.removed)
    && forall i, j :: 0 <= i < j < |r.removed| ==> r.removed[i] != r.removed[j]
  }

  ghost predicate Consistent(r: Registry) { CountsRight(r) && TagsRight(r) && IdsRight(r) }

  lemma RegisterCounts(r: Registry, p: PeerId, q: PeerId)
    requires CountRight(r, p) && CountRight(r, q) && r.nextID !in r.streams
    ensures CountRight(Registered(r, p), q)
  {
    var r' := Registered(r, p);
    if q == p {
      assert StreamsOf(r', p) == StreamsOf(r, p) + {r.nextID};
    } else {
      assert StreamsOf(r', q) == StreamsOf(r, q);
    }
  }

  lemma DeregisterCounts(r: Registry, id: StreamId, q: PeerId)
    requires id in r.streams && CountRight(r, r.streams[id]) && CountRight(r, q)
    ensures CountRight(Deregistered(r, id), q)
  {
    var r', p := Deregistered(r, id), r.streams[id];
    if q == p {
      assert id in StreamsOf(r, p);
      assert StreamsOf(r', p) == StreamsOf(r, p) - {id};
    } else {
      assert StreamsOf(r', q) == StreamsOf(r, q);
    }
  }

  lemma RegisterStreams(r: Registry, p: PeerId)
    requires Consistent(r)
    ensures var r' := Registered(r, p);
            && r.nextID !in r.streams && r.nextID !in r.removed
            && (forall q :: StreamsOf(r', q) == if q == p then StreamsOf(r, p) + {r.nextID} else StreamsOf(r, q))
  {
    assert !(r.nextID < r.nextID);
  }

  /** What is left of each peer's streams, and of the tag of the peer that lost one. */
  lemma DeregisterStreams(r: Registry, id: StreamId)
    requires Consistent(r) && id in r.streams
    ensures var r', p := Deregistered(r, id), r.streams[id];
            && (forall q :: StreamsOf(r', q) == StreamsOf(r, q) - {id})
            && Count(r'.conns, p) == Count(r.conns, p) - 1
            && (p in r'.tagged <==> StreamsOf(r, p) != {id})
  {
    var r', p := Deregistered(r, id), r.streams[id];
    assert CountRight(r, p) && id in StreamsOf(r, p);
    assert StreamsOf(r, p) == {id} + (StreamsOf(r, p) - {id});
  }

  lemma RegisterKeeps(r: Registry, p: PeerId)
    requires Consistent(r)
    ensures Consistent(Registered(r, p))
  {
    forall q
      ensures CountRight(Registered(r, p), q)
    {
      RegisterCounts(r, p, q);
    }
  }

  lemma DeregisterKeeps(r: Registry, id: StreamId)
    requires Consistent(r)
    ensures Consistent(Deregistered(r, id))
  {
    if id in r.streams {
      var r' := Deregistered(r, id);
      assert CountRight(r, r.streams[id]);
      forall q
        ensures CountRight(r', q)
      {
        DeregisterCounts(r, id, q);
      }
      RemovedOnce(r, id);
    }
  }

  lemma RemovedOnce(r: Registry, id: StreamId)
    requires IdsRight(r) && id in r.streams
    ensures IdsRight(Deregistered(r, id))
  {
    var r' := Deregistered(r, id);
    assert r'.removed[|r.removed|] == id;
    assert forall i :: 0 <= i < |r.removed| ==> r'.removed[i] == r.removed[i];
    assert forall x :: x in r.removed ==> x in r'.removed;
  }

  datatype Call = Register(p: PeerId) | Deregister(id: StreamId)

  function After(calls: seq<Call>): Registry {
    if calls == [] then EMPTY
    else
      var r, call := After(calls[..|calls| - 1]), calls[|calls| - 1];
      if call.Register? then Registered(r, call.p) else Deregistered(r, call.id)
  }

  /**
   In whatever order registrations, closes and resets take the lock: the count of a peer is the number of its
   registered streams, the peer is tagged exactly while that number is positive, no id is handed out twice and none
   deregistered twice.
   */
  lemma {:induction false} EveryInterleaving(calls: seq<Call>)
    ensures Consistent(After(calls))
    decreases |calls|
  {
    if calls == [] {
      assert forall p :: StreamsOf(EMPTY, p) == {};
    } else {
      var r, call := After(calls[..|calls| - 1]), calls[|calls| - 1];
      EveryInterleaving(calls[..|calls| - 1]);
      if call.Register? {
        RegisterKeeps(r, call.p);
      } else {
        DeregisterKeeps(r, call.id);
      }
    }
  }
}
