/**
 What the unpruned traversal writes (core/commands/refs.go with Unique unset): one edge per path.

 A route is the path of link indices followed from a node, so two different paths are two different routes even when
 they end at the same CID.
 */
module RefRoutes {
  import opened Common
  import opened Ipld
  import opened Refs

  /** Every link of the route exists and leads to a node that can be fetched. */
  ghost predicate IsRoute(g: Dag, c: Cid, r: Path)
    decreases |r|
  {
    r == [] || (c in g && r[0] < |g[c]| && g[c][r[0]].cid in g && IsRoute(g, g[c][r[0]].cid, r[1..]))
  }

  /** The last link of a route, with the node that holds it. */
  ghost function LastEdge(g: Dag, c: Cid, r: Path): (e: Edge)
    requires r != [] && IsRoute(g, c, r)
    decreases |r|
  {
    var link := g[c][r[0]];
    if |r| == 1 then Edge(c, link.cid, link.name) else LastEdge(g, link.cid, r[1..])
  }

  /** The routes from `c` that start with link `i` or a later one, in the order of the traversal. */
  ghost function Routes(g: Dag, rank: Cid -> nat, maxDepth: int, c: Cid, depth: nat, i: nat): (rs: seq<Path>)
    requires Ranked(g, rank) && c in g && i <= |g[c]|
    decreases rank(c), 1, |g[c]| - i
  {
    if i == |g[c]| then []
    else RoutesVia(g, rank, maxDepth, c, depth, i) + Routes(g, rank, maxDepth, c, depth, i + 1)
  }

  ghost function RoutesVia(g: Dag, rank: Cid -> nat, maxDepth: int, c: Cid, depth: nat, i: nat): (rs: seq<Path>)
    requires Ranked(g, rank) && c in g && i < |g[c]|
    decreases rank(c), 0, 0
  {
    if !Within(maxDepth, depth + 1) || g[c][i].cid !in g then []
    else
      Below(i, [[]] + if Within(maxDepth, depth + 2) then Routes(g, rank, maxDepth, g[c][i].cid, depth + 1, 0) else [])
  }

  ghost predicate Allowed(g: Dag, maxDepth: int, c: Cid, depth: nat, i: nat, r: Path) {
    r != [] && IsRoute(g, c, r) && i <= r[0] && Within(maxDepth, depth + |r|)
  }

  // ---------------------------------------------------------------- Routes lists exactly the allowed routes

  lemma {:induction false} RoutesSound(g: Dag, rank: Cid -> nat, maxDepth: int, c: Cid, depth: nat, i: nat)
    requires Ranked(g, rank) && c in g && i <= |g[c]|
    ensures forall r :: r in Routes(g, rank, maxDepth, c, depth, i) ==> Allowed(g, maxDepth, c, depth, i, r)
    decreases rank(c), 1, |g[c]| - i
  {
    if i < |g[c]| {
      RoutesViaSound(g, rank, maxDepth, c, depth, i);
      RoutesSound(g, rank, maxDepth, c, depth, i + 1);
    }
  }

  lemma {:induction false} RoutesViaSound(g: Dag, rank: Cid -> nat, maxDepth: int, c: Cid, depth: nat, i: nat)
    requires Ranked(g, rank) && c in g && i < |g[c]|
    ensures forall r :: r in RoutesVia(g, rank, maxDepth, c, depth, i) ==>
              Allowed(g, maxDepth, c, depth, i, r) && r[0] == i
    decreases rank(c), 0, 0
  {
    var d := g[c][i].cid;
    if d in g {
      RoutesSound(g, rank, maxDepth, d, depth + 1, 0);
      forall r | r in RoutesVia(g, rank, maxDepth, c, depth, i)
        ensures Allowed(g, maxDepth, c, depth, i, r) && r[0] == i
      {
        assert r[1..] == [] || r[1..] in Routes(g, rank, maxDepth, d, depth + 1, 0);
      }
    }
  }

  lemma {:induction false} RoutesComplete(g: Dag, rank: Cid -> nat, maxDepth: int, c: Cid, depth: nat, i: nat, r: Path)
    requires Ranked(g, rank) && c in g && i <= |g[c]| && Allowed(g, maxDepth, c, depth, i, r)
    ensures r in Routes(g, rank, maxDepth, c, depth, i)
    decreases rank(c), |g[c]| - i
  {
    if i < r[0] {
      RoutesComplete(g, rank, maxDepth, c, depth, i + 1, r);
    } else {
      var d := g[c][i].cid;
      assert r == [i] + r[1..];
      var tails := [[]] + if Within(maxDepth, depth + 2) then Routes(g, rank, maxDepth, d, depth + 1, 0) else [];
      if |r| > 1 {
        RoutesComplete(g, rank, maxDepth, d, depth + 1, 0, r[1..]);
      }
      assert r[1..] in tails by {
        assert |r| == 1 ==> r[1..] == tails[0];
      }
      var k :| 0 <= k < |tails| && tails[k] == r[1..];
      assert Below(i, tails)[k] == r;
    }
  }

  /** The routes below `d`, if the limit allows any. */
  ghost function RoutesBelow(g: Dag, rank: Cid -> nat, maxDepth: int, d: Cid, depth: nat): seq<Path>
    requires Ranked(g, rank) && d in g
  {
    if Within(maxDepth, depth + 1) then Routes(g, rank, maxDepth, d, depth, 0) else []
  }

  lemma RoutesStart(g: Dag, rank: Cid -> nat, maxDepth: int, c: Cid, depth: nat, i: nat)
    requires Ranked(g, rank) && c in g && i <= |g[c]|
    ensures forall r :: r in Routes(g, rank, maxDepth, c, depth, i) ==> r != [] && i <= r[0]
  {
    RoutesSound(g, rank, maxDepth, c, depth, i);
  }

  /** The routes come in preorder, which is the order of the links. */
  lemma {:induction false} RoutesInOrder(g: Dag, rank: Cid -> nat, maxDepth: int, c: Cid, depth: nat, i: nat)
    requires Ranked(g, rank) && c in g && i <= |g[c]|
    ensures InOrder(Routes(g, rank, maxDepth, c, depth, i))
    decreases rank(c), |g[c]| - i
  {
    if i < |g[c]| {
      var d, later := g[c][i].cid, Routes(g, rank, maxDepth, c, depth, i + 1);
      RoutesInOrder(g, rank, maxDepth, c, depth, i + 1);
      RoutesStart(g, rank, maxDepth, c, depth, i + 1);
      if RoutesVia(g, rank, maxDepth, c, depth, i) == [] {
        assert [] + later == later;
      } else {
        RoutesInOrder(g, rank, maxDepth, d, depth + 1, 0);
        RoutesStart(g, rank, maxDepth, d, depth + 1, 0);
        PreorderInOrder(i, RoutesBelow(g, rank, maxDepth, d, depth + 1), later);
      }
    }
  }

  // ---------------------------------------------------------------- the traversal writes their last edges, in order

  ghost predicate WritesLastEdges(g: Dag, c: Cid, rs: seq<Path>, edges: seq<Edge>) {
    && |edges| == |rs|
    && forall k :: 0 <= k < |rs| ==> rs[k] != [] && IsRoute(g, c, rs[k]) && edges[k] == LastEdge(g, c, rs[k])
  }

  lemma {:induction false} EdgesOfRoutes(g: Dag, rank: Cid -> nat, maxDepth: int, c: Cid, depth: nat, i: nat)
    requires Ranked(g, rank) && c in g && i <= |g[c]| && Unpruned(g, rank, maxDepth, c, depth, i).ok
    ensures WritesLastEdges(g, c, Routes(g, rank, maxDepth, c, depth, i),
                            Unpruned(g, rank, maxDepth, c, depth, i).edges)
    decreases rank(c), 1, |g[c]| - i
  {
    if i < |g[c]| {
      EdgesOfRoutesVia(g, rank, maxDepth, c, depth, i);
      EdgesOfRoutes(g, rank, maxDepth, c, depth, i + 1);
    }
  }

  lemma {:induction false} EdgesOfRoutesVia(g: Dag, rank: Cid -> nat, maxDepth: int, c: Cid, depth: nat, i: nat)
    requires Ranked(g, rank) && c in g && i < |g[c]| && UnprunedLink(g, rank, maxDepth, c, depth, i).ok
    ensures WritesLastEdges(g, c, RoutesVia(g, rank, maxDepth, c, depth, i),
                            UnprunedLink(g, rank, maxDepth, c, depth, i).edges)
    decreases rank(c), 0, 0
  {
    var link := g[c][i];
    if Within(maxDepth, depth + 1) {
      if Within(maxDepth, depth + 2) {
        EdgesOfRoutes(g, rank, maxDepth, link.cid, depth + 1, 0);
        ViaWrites(g, c, i, Routes(g, rank, maxDepth, link.cid, depth + 1, 0),
                  Unpruned(g, rank, maxDepth, link.cid, depth + 1, 0).edges);
      } else {
        ViaWrites(g, c, i, [], []);
      }
    }
  }

  /** A link, and after it the routes that go on from its target. */
  lemma ViaWrites(g: Dag, c: Cid, i: nat, below: seq<Path>, edges: seq<Edge>)
    requires c in g && i < |g[c]| && g[c][i].cid in g && WritesLastEdges(g, g[c][i].cid, below, edges)
    ensures WritesLastEdges(g, c, Below(i, [[]] + below), [Edge(c, g[c][i].cid, g[c][i].name)] + edges)
  {
    var rs, all := Below(i, [[]] + below), [Edge(c, g[c][i].cid, g[c][i].name)] + edges;
    forall k | 0 <= k < |rs|
      ensures rs[k] != [] && IsRoute(g, c, rs[k]) && all[k] == LastEdge(g, c, rs[k])
    {
      if k == 0 {
        assert rs[0] == [i];
      } else {
        assert rs[k] == [i] + below[k - 1] && rs[k][1..] == below[k - 1];
      }
    }
  }

  /**
   One edge per path: a completed traversal of `c` writes the last edge of every route of length 1..maxDepth from `c`,
   in preorder.
   */
  lemma OneEdgePerPath(g: Dag, rank: Cid -> nat, maxDepth: int, c: Cid)
    requires Ranked(g, rank) && c in g && Unpruned(g, rank, maxDepth, c, 0, 0).ok
    ensures var rs := Routes(g, rank, maxDepth, c, 0, 0);
            && InOrder(rs)
            && (forall r :: r in rs <==> r != [] && IsRoute(g, c, r) && (maxDepth < 0 || |r| <= maxDepth))
            && WritesLastEdges(g, c, rs, Unpruned(g, rank, maxDepth, c, 0, 0).edges)
  {
    RoutesInOrder(g, rank, maxDepth, c, 0, 0);
    RoutesSound(g, rank, maxDepth, c, 0, 0);
    forall r | r != [] && IsRoute(g, c, r) && Within(maxDepth, |r|)
      ensures r in Routes(g, rank, maxDepth, c, 0, 0)
    {
      RoutesComplete(g, rank, maxDepth, c, 0, 0, r);
    }
    EdgesOfRoutes(g, rank, maxDepth, c, 0, 0);
  }

  // ---------------------------------------------------------------- the pruned traversal keeps to the same order

  /** `edges` are the last edges of `rs`, routes in preorder that start with link `i` of `c` or a later one. */
  ghost predicate Follows(g: Dag, c: Cid, i: nat, rs: seq<Path>, edges: seq<Edge>) {
    InOrder(rs) && (forall r :: r in rs ==> r != [] && i <= r[0]) && WritesLastEdges(g, c, rs, edges)
  }

  ghost function Followings(g: Dag, c: Cid, i: nat): iset<(seq<Path>, seq<Edge>)> {
    iset x: (seq<Path>, seq<Edge>) | Follows(g, c, i, x.0, x.1)
  }

  /** As Followings, for the routes that start with link `i`. */
  ghost function LinkFollowings(g: Dag, c: Cid, i: nat): iset<(seq<Path>, seq<Edge>)> {
    iset x: (seq<Path>, seq<Edge>) | Follows(g, c, i, x.0, x.1) && forall r :: r in x.0 ==> r[0] <= i
  }

  lemma NothingFollows(g: Dag, c: Cid, i: nat)
    ensures ([], []) in Followings(g, c, i) && ([], []) in LinkFollowings(g, c, i)
  {
    assert Follows(g, c, i, [], []);
  }

  lemma BelowWrites(g: Dag, c: Cid, i: nat, below: seq<Path>, edges: seq<Edge>)
    requires c in g && i < |g[c]| && g[c][i].cid in g && WritesLastEdges(g, g[c][i].cid, below, edges)
    ensures WritesLastEdges(g, c, Below(i, below), edges)
  {
    var rs := Below(i, below);
    forall k | 0 <= k < |rs|
      ensures rs[k] != [] && IsRoute(g, c, rs[k]) && edges[k] == LastEdge(g, c, rs[k])
    {
      assert rs[k][1..] == below[k];
    }
  }

  /** What follows below the target of link `i`, with the link itself if `here`. */
  lemma FollowsBelow(g: Dag, c: Cid, i: nat, here: bool, below: seq<Path>, edges: seq<Edge>)
    requires c in g && i < |g[c]| && g[c][i].cid in g && (below, edges) in Followings(g, g[c][i].cid, 0)
    ensures var rs := Below(i, (if here then [[]] else []) + below);
            (rs, (if here then [EdgeAt(g, c, i)] else []) + edges) in LinkFollowings(g, c, i)
  {
    assert Follows(g, g[c][i].cid, 0, below, edges);
    if here {
      ViaWrites(g, c, i, below, edges);
      AppendInOrder([[]], below, 0);
      BelowInOrder(i, [[]] + below);
    } else {
      assert [] + below == below && [] + edges == edges;
      BelowWrites(g, c, i, below, edges);
      BelowInOrder(i, below);
    }
  }

  /** One link and the links after it. */
  lemma FollowsOn(g: Dag, c: Cid, i: nat, rs: seq<Path>, edges: seq<Edge>, rs': seq<Path>, edges': seq<Edge>)
    requires (rs, edges) in LinkFollowings(g, c, i) && (rs', edges') in Followings(g, c, i + 1)
    ensures (rs + rs', edges + edges') in Followings(g, c, i)
  {
    assert Follows(g, c, i, rs, edges) && Follows(g, c, i + 1, rs', edges');
    AppendInOrder(rs, rs', i + 1);
    assert WritesLastEdges(g, c, rs + rs', edges + edges');
  }

  lemma Regroup(a: seq<Edge>, b: seq<Edge>, c: seq<Edge>)
    ensures (a + b) + c == a + (b + c) && a + [] == a
  {}

  /** Whatever a pruned walk writes, from any table and even if it fails, it writes in the order of the routes. */
  lemma {:induction false} WalkedFollows(g: Dag, rank: Cid -> nat, maxDepth: int, o: Outcome, c: Cid, depth: nat,
                                         i: nat)
    returns (rs: seq<Path>, edges: seq<Edge>)
    requires Ranked(g, rank) && c in g && i <= |g[c]|
    ensures Walked(g, rank, maxDepth, o, c, depth, i).edges == o.edges + edges && (rs, edges) in Followings(g, c, i)
    decreases rank(c), 1, |g[c]| - i
  {
    if i == |g[c]| || !o.ok {
      rs, edges := [], [];
      NothingFollows(g, c, i);
    } else {
      var mid := WalkedLink(g, rank, maxDepth, o, c, depth, i);
      var rs0, edges0 := WalkedLinkFollows(g, rank, maxDepth, o, c, depth, i);
      var rs1, edges1 := WalkedFollows(g, rank, maxDepth, mid, c, depth, i + 1);
      rs, edges := rs0 + rs1, edges0 + edges1;
      FollowsOn(g, c, i, rs0, edges0, rs1, edges1);
      Regroup(o.edges, edges0, edges1);
    }
  }

  lemma {:induction false} WalkedLinkFollows(g: Dag, rank: Cid -> nat, maxDepth: int, o: Outcome, c: Cid, depth: nat,
                                             i: nat)
    returns (rs: seq<Path>, edges: seq<Edge>)
    requires Ranked(g, rank) && c in g && i < |g[c]|
    ensures WalkedLink(g, rank, maxDepth, o, c, depth, i).edges == o.edges + edges
    ensures (rs, edges) in LinkFollowings(g, c, i)
    decreases rank(c), 0, 0
  {
    var e := EdgeAt(g, c, i);
    var v := Visited(g, maxDepth, o, e, depth + 1);
    var here := v.edges != o.edges;
    var first := if here then [e] else [];
    VisitedWrites(g, maxDepth, o, e, depth + 1);
    var below: seq<Path>, more: seq<Edge> := [], [];
    NothingFollows(g, e.dst, 0);
    if v.ok && GoesDeeper(maxDepth, o, e, depth + 1) {
      below, more := WalkedFollows(g, rank, maxDepth, v, e.dst, depth + 1, 0);
    }
    if e.dst in g {
      FollowsBelow(g, c, i, here, below, more);
      rs, edges := Below(i, (if here then [[]] else []) + below), first + more;
      Regroup(o.edges, first, more);
    } else {
      rs, edges := [], [];
      NothingFollows(g, c, i);
    }
  }

  lemma VisitedWrites(g: Dag, maxDepth: int, o: Outcome, e: Edge, k: nat)
    ensures var v := Visited(g, maxDepth, o, e, k);
            v.edges == o.edges || (v.edges == o.edges + [e] && v.edges != o.edges && e.dst in g)
  {}

  /**
   A pruned walk of `root` writes edges in the order in which the unpruned one would: they are the last edges of routes
   in preorder.
   */
  lemma PrunedInOrder(g: Dag, rank: Cid -> nat, maxDepth: int, o: Outcome, root: Cid)
    returns (rs: seq<Path>, edges: seq<Edge>)
    requires Ranked(g, rank) && root in g
    ensures Walked(g, rank, maxDepth, o, root, 0, 0).edges == o.edges + edges
    ensures InOrder(rs) && WritesLastEdges(g, root, rs, edges)
  {
    rs, edges := WalkedFollows(g, rank, maxDepth, o, root, 0, 0);
    assert Follows(g, root, 0, rs, edges);
  }
}
