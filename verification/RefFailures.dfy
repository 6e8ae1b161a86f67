/**
 What `ipfs refs --unique` does after a root has failed (core/commands/refs.go). The table of seen CIDs is kept for the
 next root, with entries that were made on the way to the failure and never explored. A later root that runs into one
 stops there, so its walk can succeed without having written all of its scope.
 */
module RefFailures {
  import opened Ipld
  import opened Refs

  /** `c` is in the scope of `root` alone. */
  ghost predicate OwnScope(g: Dag, maxDepth: int, root: Cid, c: Cid) { InScope(Paths(g, {root}), maxDepth, c) }

  /** A table and an output as any number of walks, failed ones included, may leave them. */
  ghost predicate LeftBehind(g: Dag, maxDepth: int, paths: iset<(Cid, nat)>, root: Cid, o: Outcome) {
    o.ok && FollowsLinks(g, paths) && (root, 0) in paths && Consistent(paths, maxDepth, o.seen, o.edges)
  }

  /**
   Exactly which CIDs a successful walk leaves out: those not written before that are already in the table, or that no
   path reaches without passing an entry of the table which is at least as close to a root.
   */
  lemma MissedIff(g: Dag, rank: Cid -> nat, maxDepth: int, paths: iset<(Cid, nat)>, o: Outcome, root: Cid, c: Cid)
    requires Ranked(g, rank) && root in g && LeftBehind(g, maxDepth, paths, root, o)
    requires Walked(g, rank, maxDepth, o, root, 0, 0).ok && OwnScope(g, maxDepth, root, c)
    ensures !Writes(Walked(g, rank, maxDepth, o, root, 0, 0).edges, c) <==>
            !Writes(o.edges, c) && (c in o.seen || !ReachedPast(g, maxDepth, o.seen, root, c))
  {
    RootProceeds(g, rank, maxDepth, paths, o, root);
  }

  /** An entry of the table that is done with: explored, and written. */
  ghost predicate Finished(g: Dag, maxDepth: int, o: Outcome, c: Cid) {
    c in o.seen ==> Explored(g, o.seen, maxDepth, c) && Writes(o.edges, c)
  }

  lemma {:induction false} OwnPathIsCovered(g: Dag, maxDepth: int, o: Outcome, o': Outcome, root: Cid, c: Cid, n: nat)
    requires Advances(g, maxDepth, o.seen, o.edges, o'.seen, o'.edges, true)
    requires Within(maxDepth, 1) ==> LinksCovered(g, o'.seen, maxDepth, root, 0)
    requires forall x :: OwnScope(g, maxDepth, root, x) ==> Finished(g, maxDepth, o, x)
    requires 1 <= n && Within(maxDepth, n) && Reaches(g, {root}, c, n)
    ensures Covered(o'.seen, maxDepth, c, n)
    decreases n
  {
    var m :| HasLink(g, m, c) && Reaches(g, {root}, m, n - 1);
    if n > 1 {
      OwnPathIsCovered(g, maxDepth, o, o', root, m, n - 1);
      assert (m, n - 1) in Paths(g, {root});
      assert Finished(g, maxDepth, o, m);
      if Touched(o.seen, o'.seen, m) {
        assert LinksCovered(g, o'.seen, maxDepth, m, o'.seen[m]);
      } else {
        assert LinksCovered(g, o.seen, maxDepth, m, o.seen[m]);
      }
    }
  }

  /** A successful walk writes all of its scope if the table has no unfinished entry there. */
  lemma NothingMissed(g: Dag, rank: Cid -> nat, maxDepth: int, paths: iset<(Cid, nat)>, o: Outcome, root: Cid, c: Cid)
    requires Ranked(g, rank) && root in g && LeftBehind(g, maxDepth, paths, root, o)
    requires Walked(g, rank, maxDepth, o, root, 0, 0).ok && OwnScope(g, maxDepth, root, c)
    requires forall x :: OwnScope(g, maxDepth, root, x) ==> Finished(g, maxDepth, o, x)
    ensures Writes(Walked(g, rank, maxDepth, o, root, 0, 0).edges, c)
  {
    var o' := Walked(g, rank, maxDepth, o, root, 0, 0);
    RootProceeds(g, rank, maxDepth, paths, o, root);
    var n: nat :| 1 <= n && Within(maxDepth, n) && (c, n) in Paths(g, {root});
    OwnPathIsCovered(g, maxDepth, o, o', root, c, n);
    if c in o.seen {
      assert Finished(g, maxDepth, o, c);
      StillWrites(o.edges, o'.edges, c);
    }
  }

  // ---------------------------------------------------------------- where a failed walk leaves off

  /** A path of `n` links leads from `c` to a node that cannot be fetched. */
  ghost predicate LeadsAstray(g: Dag, c: Cid, n: nat)
    decreases n
  {
    if n == 0 then c !in g else exists d :: HasLink(g, c, d) && LeadsAstray(g, d, n - 1)
  }

  /** A walk that finds `c` at depth `k` may fail at it or below it. */
  ghost predicate Ailing(g: Dag, maxDepth: int, c: Cid, k: nat) {
    exists n: nat :: Within(maxDepth, k + n) && LeadsAstray(g, c, n)
  }

  lemma AilsAbove(g: Dag, maxDepth: int, c: Cid, d: Cid, k: nat)
    requires HasLink(g, c, d) && Ailing(g, maxDepth, d, k + 1)
    ensures Ailing(g, maxDepth, c, k)
  {
    var n: nat :| Within(maxDepth, k + 1 + n) && LeadsAstray(g, d, n);
    assert LeadsAstray(g, c, n + 1);
    assert Within(maxDepth, k + (n + 1));
  }

  lemma AilsHigher(g: Dag, maxDepth: int, c: Cid, k: nat, k': nat)
    requires k' <= k
    ensures Ailing(g, maxDepth, c, k) ==> Ailing(g, maxDepth, c, k')
  {
    if Ailing(g, maxDepth, c, k) {
      var n: nat :| Within(maxDepth, k + n) && LeadsAstray(g, c, n);
      assert Within(maxDepth, k' + n);
    }
  }

  lemma MissingAils(g: Dag, maxDepth: int, c: Cid, k: nat)
    requires Within(maxDepth, k)
    ensures c !in g ==> Ailing(g, maxDepth, c, k)
  {
    if c !in g {
      assert LeadsAstray(g, c, 0) && Within(maxDepth, k + 0);
    }
  }

  /** Entry `c` of the table is explored, or a walk could not get past it. */
  ghost predicate Settled(g: Dag, maxDepth: int, seen: Seen, c: Cid)
    requires c in seen
  {
    Explored(g, seen, maxDepth, c) || Ailing(g, maxDepth, c, seen[c])
  }

  ghost predicate TouchedSettled(g: Dag, maxDepth: int, seen: Seen, seen': Seen) {
    forall c :: Touched(seen, seen', c) ==> Settled(g, maxDepth, seen', c)
  }

  /** What the table lacks in the output cannot be fetched. */
  ghost predicate LacksMissing(g: Dag, o: Outcome) { forall c :: c in o.seen ==> Writes(o.edges, c) || c !in g }

  /** What a stretch of the traversal leaves, a failed one included. */
  ghost predicate Leaves(g: Dag, maxDepth: int, o: Outcome, o': Outcome) {
    Grows(o.seen, o'.seen) && o.edges <= o'.edges && TouchedSettled(g, maxDepth, o.seen, o'.seen) && LacksMissing(g, o')
  }

  lemma StaysExplored(g: Dag, maxDepth: int, seen: Seen, seen': Seen, c: Cid)
    requires Grows(seen, seen') && c in seen && seen'[c] == seen[c] && Settled(g, maxDepth, seen, c)
    ensures Settled(g, maxDepth, seen', c)
  {}

  lemma LeavesTwice(g: Dag, maxDepth: int, o: Outcome, mid: Outcome, o': Outcome)
    requires Leaves(g, maxDepth, o, mid) && Leaves(g, maxDepth, mid, o')
    ensures Leaves(g, maxDepth, o, o')
  {
    GrowsTwice(o.seen, mid.seen, o'.seen);
    PrefixTwice(o.edges, mid.edges, o'.edges);
    forall c | Touched(o.seen, o'.seen, c)
      ensures Settled(g, maxDepth, o'.seen, c)
    {
      if !Touched(mid.seen, o'.seen, c) {
        StaysExplored(g, maxDepth, mid.seen, o'.seen, c);
      }
    }
  }

  lemma StillLacksMissing(g: Dag, o: Outcome, v: Outcome, edge: Edge, k: nat)
    requires LacksMissing(g, o) && v.seen == o.seen[edge.dst := k] && o.edges <= v.edges
    requires edge.dst !in o.seen && edge.dst in g ==> v.edges == o.edges + [edge]
    ensures LacksMissing(g, v)
  {
    forall c | c in v.seen && c in g
      ensures Writes(v.edges, c)
    {
      if c in o.seen {
        StillWrites(o.edges, v.edges, c);
      } else {
        assert v.edges[|o.edges|].dst == c;
      }
    }
  }

  lemma VisitedLacks(g: Dag, maxDepth: int, o: Outcome, edge: Edge, k: nat)
    requires LacksMissing(g, o) && o.ok
    ensures var v := Visited(g, maxDepth, o, edge, k); LacksMissing(g, v) && Grows(o.seen, v.seen) && o.edges <= v.edges
  {
    if !Pruned(true, maxDepth, o.seen, edge.dst, k) {
      StillLacksMissing(g, o, Visited(g, maxDepth, o, edge, k), edge, k);
    }
  }

  /** The target of `edge` has been entered and the traversal has gone on below it, to the end or to a failure. */
  lemma EnteredLeaves(g: Dag, maxDepth: int, o: Outcome, v: Outcome, o': Outcome, c: Cid, k: nat)
    requires Grows(o.seen, v.seen) && o.edges <= v.edges && v.seen == o.seen[c := k] && Leaves(g, maxDepth, v, o')
    requires Ailing(g, maxDepth, c, k) || (Within(maxDepth, k + 1) ==> LinksCovered(g, o'.seen, maxDepth, c, k))
    ensures Leaves(g, maxDepth, o, o')
  {
    GrowsTwice(o.seen, v.seen, o'.seen);
    PrefixTwice(o.edges, v.edges, o'.edges);
    forall x | Touched(o.seen, o'.seen, x)
      ensures Settled(g, maxDepth, o'.seen, x)
    {
      if !Touched(v.seen, o'.seen, x) {
        assert x == c && o'.seen[x] == k;
      }
    }
  }

  lemma LeavesAsIs(g: Dag, maxDepth: int, o: Outcome)
    requires LacksMissing(g, o)
    ensures Leaves(g, maxDepth, o, o)
  {}

  /** A failure below a node means that the node leads astray within the limit. */
  lemma {:induction false} WalkedLinkLeaves(g: Dag, rank: Cid -> nat, maxDepth: int, o: Outcome, c: Cid, depth: nat,
                                            i: nat)
    requires Ranked(g, rank) && c in g && i < |g[c]| && o.ok && LacksMissing(g, o)
    ensures var o' := WalkedLink(g, rank, maxDepth, o, c, depth, i);
            && Leaves(g, maxDepth, o, o') && (!o'.ok ==> Ailing(g, maxDepth, c, depth))
            && (o'.ok && Within(maxDepth, depth + 1) ==> Covered(o'.seen, maxDepth, g[c][i].cid, depth + 1))
    decreases rank(c), 0, 0
  {
    var edge := Edge(c, g[c][i].cid, g[c][i].name);
    var v, k := Visited(g, maxDepth, o, edge, depth + 1), depth + 1;
    assert HasLink(g, c, edge.dst);
    VisitedLacks(g, maxDepth, o, edge, k);
    LeavesAsIs(g, maxDepth, v);
    if !Pruned(true, maxDepth, o.seen, edge.dst, k) {
      if !v.ok {
        MissingAils(g, maxDepth, edge.dst, k);
        AilsAbove(g, maxDepth, c, edge.dst, depth);
        EnteredLeaves(g, maxDepth, o, v, v, edge.dst, k);
      } else if GoesDeeper(maxDepth, o, edge, k) {
        var o' := Walked(g, rank, maxDepth, v, edge.dst, k, 0);
        WalkedLeaves(g, rank, maxDepth, v, edge.dst, k, 0);
        if !o'.ok {
          AilsAbove(g, maxDepth, c, edge.dst, depth);
        }
        EnteredLeaves(g, maxDepth, o, v, o', edge.dst, k);
      } else {
        EnteredLeaves(g, maxDepth, o, v, v, edge.dst, k);
      }
    }
  }

  lemma {:induction false} WalkedLeaves(g: Dag, rank: Cid -> nat, maxDepth: int, o: Outcome, c: Cid, depth: nat, i: nat)
    requires Ranked(g, rank) && c in g && i <= |g[c]| && o.ok && LacksMissing(g, o)
    ensures var o' := Walked(g, rank, maxDepth, o, c, depth, i);
            && Leaves(g, maxDepth, o, o') && (!o'.ok ==> Ailing(g, maxDepth, c, depth))
            && (o'.ok ==> LinksDone(g, maxDepth, o'.seen, c, depth, i))
    decreases rank(c), 1, |g[c]| - i
  {
    if i < |g[c]| {
      var mid, o' := WalkedLink(g, rank, maxDepth, o, c, depth, i), Walked(g, rank, maxDepth, o, c, depth, i);
      WalkedLinkLeaves(g, rank, maxDepth, o, c, depth, i);
      if mid.ok {
        WalkedLeaves(g, rank, maxDepth, mid, c, depth, i + 1);
        LeavesTwice(g, maxDepth, o, mid, o');
      }
    } else {
      LeavesAsIs(g, maxDepth, o);
    }
  }

  // ---------------------------------------------------------------- the whole list of roots

  /** The table after any number of roots. */
  ghost predicate AllSettled(g: Dag, maxDepth: int, o: Outcome) {
    o.ok && LacksMissing(g, o) && forall c :: c in o.seen ==> Settled(g, maxDepth, o.seen, c)
  }

  lemma RootLeavesSettled(g: Dag, rank: Cid -> nat, maxDepth: int, o: Outcome, root: Cid)
    requires Ranked(g, rank) && AllSettled(g, maxDepth, o)
    ensures AllSettled(g, maxDepth, WalkedRoot(g, rank, maxDepth, o, root))
    ensures o.edges <= WalkedRoot(g, rank, maxDepth, o, root).edges
  {
    if root in g {
      var o' := Walked(g, rank, maxDepth, o, root, 0, 0);
      WalkedLeaves(g, rank, maxDepth, o, root, 0, 0);
      forall c | c in o'.seen
        ensures Settled(g, maxDepth, o'.seen, c)
      {
        if !Touched(o.seen, o'.seen, c) {
          StaysExplored(g, maxDepth, o.seen, o'.seen, c);
        }
      }
    }
  }

  lemma {:induction false} RootsLeaveSettled(g: Dag, rank: Cid -> nat, maxDepth: int, roots: seq<Cid>)
    requires Ranked(g, rank)
    ensures AllSettled(g, maxDepth, WalkedRoots(g, rank, maxDepth, roots))
    decreases |roots|
  {
    if roots != [] {
      var front := roots[..|roots| - 1];
      RootsLeaveSettled(g, rank, maxDepth, front);
      RootLeavesSettled(g, rank, maxDepth, WalkedRoots(g, rank, maxDepth, front), roots[|roots| - 1]);
    }
  }

  /**
   The root can be fetched, and nothing in its scope leads within the limit to a node that cannot be. Without a limit
   this says that everything reachable from the root can be fetched.
   */
  ghost predicate Healthy(g: Dag, maxDepth: int, root: Cid) {
    root in g && forall c :: OwnScope(g, maxDepth, root, c) ==> !Ailing(g, maxDepth, c, 1)
  }

  lemma HealthyRootIsFine(g: Dag, maxDepth: int, root: Cid)
    requires Healthy(g, maxDepth, root)
    ensures !Ailing(g, maxDepth, root, 0)
  {
    if Ailing(g, maxDepth, root, 0) {
      var n: nat :| Within(maxDepth, 0 + n) && LeadsAstray(g, root, n);
      var d :| HasLink(g, root, d) && LeadsAstray(g, d, n - 1);
      assert Reaches(g, {root}, root, 0);
      assert Reaches(g, {root}, d, 1);
      assert (d, 1) in Paths(g, {root});
      assert OwnScope(g, maxDepth, root, d);
      assert Within(maxDepth, 1 + (n - 1));
      assert Ailing(g, maxDepth, d, 1);
    }
  }

  lemma HealthyIsFinished(g: Dag, maxDepth: int, paths: iset<(Cid, nat)>, o: Outcome, root: Cid, c: Cid)
    requires Healthy(g, maxDepth, root) && AllSettled(g, maxDepth, o) && Consistent(paths, maxDepth, o.seen, o.edges)
    requires OwnScope(g, maxDepth, root, c)
    ensures Finished(g, maxDepth, o, c)
  {
    if c in o.seen {
      AilsHigher(g, maxDepth, c, o.seen[c], 1);
      MissingAils(g, maxDepth, c, 1);
    }
  }

  /** Whatever came before, the walk of a healthy root succeeds and leaves all of its scope written. */
  lemma HealthyRootWritten(g: Dag, rank: Cid -> nat, maxDepth: int, paths: iset<(Cid, nat)>, o: Outcome, root: Cid,
                           c: Cid)
    requires Ranked(g, rank) && LeftBehind(g, maxDepth, paths, root, o) && AllSettled(g, maxDepth, o)
    requires Healthy(g, maxDepth, root)
    ensures Walked(g, rank, maxDepth, o, root, 0, 0).ok
    ensures OwnScope(g, maxDepth, root, c) ==> Writes(WalkedRoot(g, rank, maxDepth, o, root).edges, c)
  {
    HealthyRootIsFine(g, maxDepth, root);
    WalkedLeaves(g, rank, maxDepth, o, root, 0, 0);
    forall x | OwnScope(g, maxDepth, root, x)
      ensures Finished(g, maxDepth, o, x)
    {
      HealthyIsFinished(g, maxDepth, paths, o, root, x);
    }
    if OwnScope(g, maxDepth, root, c) {
      NothingMissed(g, rank, maxDepth, paths, o, root, c);
    }
  }

  /**
   Over the whole list: the scope of each healthy root is written, whichever other roots fail, before it or after it.
   */
  lemma {:induction false} HealthyRootsComplete(g: Dag, rank: Cid -> nat, maxDepth: int, roots: seq<Cid>, root: Cid,
                                                c: Cid)
    requires Ranked(g, rank) && root in roots && Healthy(g, maxDepth, root) && OwnScope(g, maxDepth, root, c)
    ensures Writes(WalkedRoots(g, rank, maxDepth, roots).edges, c)
    decreases |roots|
  {
    var front, last := roots[..|roots| - 1], roots[|roots| - 1];
    var o, paths := WalkedRoots(g, rank, maxDepth, front), Paths(g, Elems(roots));
    RootsLeaveSettled(g, rank, maxDepth, front);
    if root == last {
      PathsFollowLinks(g, Elems(roots));
      RootsProceed(g, rank, maxDepth, paths, front);
      HealthyRootWritten(g, rank, maxDepth, paths, o, root, c);
    } else {
      HealthyRootsComplete(g, rank, maxDepth, front, root, c);
      RootLeavesSettled(g, rank, maxDepth, o, last);
      StillWrites(o.edges, WalkedRoots(g, rank, maxDepth, roots).edges, c);
    }
  }

  lemma {:induction false} AstrayIsReached(g: Dag, root: Cid, c: Cid, m: nat, n: nat) returns (x: Cid)
    requires Reaches(g, {root}, c, m) && LeadsAstray(g, c, n)
    ensures Reaches(g, {root}, x, m + n) && x !in g
    decreases n
  {
    if n == 0 {
      x := c;
    } else {
      var d :| HasLink(g, c, d) && LeadsAstray(g, d, n - 1);
      assert Reaches(g, {root}, d, m + 1);
      x := AstrayIsReached(g, root, d, m + 1, n - 1);
    }
  }

  /** Without a limit a root is healthy exactly when it and all of its own scope can be fetched. */
  lemma UnlimitedHealthIff(g: Dag, maxDepth: int, root: Cid)
    requires Unlimited(maxDepth)
    ensures Healthy(g, maxDepth, root) <==> root in g && ScopeFetchable(g, Paths(g, {root}), maxDepth)
  {
    if Healthy(g, maxDepth, root) {
      forall c | OwnScope(g, maxDepth, root, c)
        ensures c in g
      {
        MissingAils(g, maxDepth, c, 1);
      }
    }
    if ScopeFetchable(g, Paths(g, {root}), maxDepth) {
      forall c | OwnScope(g, maxDepth, root, c)
        ensures !Ailing(g, maxDepth, c, 1)
      {
        FetchableIsFine(g, maxDepth, root, c);
      }
    }
  }

  lemma AstrayLeavesScope(g: Dag, maxDepth: int, root: Cid, c: Cid, m: nat, n: nat)
    requires Unlimited(maxDepth) && 1 <= m && Reaches(g, {root}, c, m) && LeadsAstray(g, c, n)
    ensures !ScopeFetchable(g, Paths(g, {root}), maxDepth)
  {
    var x := AstrayIsReached(g, root, c, m, n);
    assert (x, m + n) in Paths(g, {root});
    assert OwnScope(g, maxDepth, root, x);
  }

  lemma FetchableIsFine(g: Dag, maxDepth: int, root: Cid, c: Cid)
    requires Unlimited(maxDepth) && ScopeFetchable(g, Paths(g, {root}), maxDepth) && OwnScope(g, maxDepth, root, c)
    ensures !Ailing(g, maxDepth, c, 1)
  {
    var m: nat :| 1 <= m && Within(maxDepth, m) && (c, m) in Paths(g, {root});
    forall n: nat | LeadsAstray(g, c, n)
      ensures false
    {
      AstrayLeavesScope(g, maxDepth, root, c, m, n);
    }
  }

  // ---------------------------------------------------------------- an input

  const FIRST := Cid(1, 0x70, 1)
  const SECOND := Cid(1, 0x70, 2)
  const SHARED := Cid(1, 0x70, 3)
  const MISSING := Cid(1, 0x70, 4)
  const LEAF := Cid(1, 0x70, 5)

  /** Two roots share a node, which links to a node that cannot be fetched and then to one that can. */
  const GRAPH: Dag :=
    map[FIRST := [Link("", SHARED)], SECOND := [Link("", SHARED)],
        SHARED := [Link("", MISSING), Link("", LEAF)], LEAF := []]

  const RANK: Cid -> nat := c => if c == FIRST || c == SECOND then 2 else if c == SHARED then 1 else 0

  const EMPTY := Outcome(map[], [], true)
  const HALFWAY := Outcome(map[SHARED := 1], [Edge(FIRST, SHARED, "")], true)
  const FAILED := Outcome(map[SHARED := 1, MISSING := 2], [Edge(FIRST, SHARED, "")], false)

  lemma GraphRanked()
    ensures Ranked(GRAPH, RANK)
  {}

  /** The first root fails at the missing node, with the shared node half explored. */
  lemma FirstFails()
    ensures Ranked(GRAPH, RANK) && Walked(GRAPH, RANK, -1, EMPTY, FIRST, 0, 0) == FAILED
  {
    GraphRanked();
    assert GRAPH[FIRST][0] == Link("", SHARED) && GRAPH[SHARED][0] == Link("", MISSING);
    assert Visited(GRAPH, -1, EMPTY, Edge(FIRST, SHARED, ""), 1) == HALFWAY;
    assert Visited(GRAPH, -1, HALFWAY, Edge(SHARED, MISSING, ""), 2) == FAILED;
    assert WalkedLink(GRAPH, RANK, -1, HALFWAY, SHARED, 1, 0) == FAILED;
    assert Walked(GRAPH, RANK, -1, HALFWAY, SHARED, 1, 0) == Walked(GRAPH, RANK, -1, FAILED, SHARED, 1, 1) == FAILED;
    assert WalkedLink(GRAPH, RANK, -1, EMPTY, FIRST, 0, 0) == FAILED;
    assert Walked(GRAPH, RANK, -1, EMPTY, FIRST, 0, 0) == Walked(GRAPH, RANK, -1, FAILED, FIRST, 0, 1);
  }

  /** The second root is pruned at the shared node: it succeeds, and writes nothing. */
  lemma SecondSucceeds()
    ensures Ranked(GRAPH, RANK) && Walked(GRAPH, RANK, -1, FAILED.(ok := true), SECOND, 0, 0) == FAILED.(ok := true)
  {
    GraphRanked();
    var o := FAILED.(ok := true);
    assert GRAPH[SECOND][0] == Link("", SHARED);
    assert Visited(GRAPH, -1, o, Edge(SECOND, SHARED, ""), 1) == o;
    assert WalkedLink(GRAPH, RANK, -1, o, SECOND, 0, 0) == o;
    assert Walked(GRAPH, RANK, -1, o, SECOND, 0, 0) == Walked(GRAPH, RANK, -1, o, SECOND, 0, 1);
  }

  lemma LeafInScope()
    ensures OwnScope(GRAPH, -1, SECOND, LEAF)
  {
    assert GRAPH[SECOND][0].cid == SHARED && GRAPH[SHARED][1].cid == LEAF;
    assert HasLink(GRAPH, SECOND, SHARED) && HasLink(GRAPH, SHARED, LEAF);
    assert Reaches(GRAPH, {SECOND}, SECOND, 0);
    assert Reaches(GRAPH, {SECOND}, SHARED, 1);
    assert Reaches(GRAPH, {SECOND}, LEAF, 2);
    assert (LEAF, 2) in Paths(GRAPH, {SECOND});
  }

  /**
   After the first root has failed, the second one succeeds though a node in its scope that can be fetched is not
   written.
   */
  lemma ScopeCanBeMissed()
    ensures Ranked(GRAPH, RANK) && !Walked(GRAPH, RANK, -1, EMPTY, FIRST, 0, 0).ok
    ensures var o := Walked(GRAPH, RANK, -1, EMPTY, FIRST, 0, 0).(ok := true);
            Walked(GRAPH, RANK, -1, o, SECOND, 0, 0).ok && !Writes(Walked(GRAPH, RANK, -1, o, SECOND, 0, 0).edges, LEAF)
    ensures OwnScope(GRAPH, -1, SECOND, LEAF) && LEAF in GRAPH
  {
    FirstFails();
    SecondSucceeds();
    LeafInScope();
  }

  // ---------------------------------------------------------------- an input with a limit

  const STEP := Cid(1, 0x70, 6)
  const INNER := Cid(1, 0x70, 7)

  /** The shared node is one link further from the second root, so that the missing one is out of that root's scope. */
  const DEEP: Dag :=
    map[FIRST := [Link("", SHARED)], SECOND := [Link("", STEP)], STEP := [Link("", SHARED)],
        SHARED := [Link("", INNER), Link("", LEAF)], INNER := [Link("", MISSING)], LEAF := []]

  const DEPTHS: Cid -> nat :=
    c => if c == FIRST || c == SECOND then 4
         else if c == STEP then 3
         else if c == SHARED then 2
         else if c == INNER then 1
         else 0

  const TO_SHARED := Outcome(map[SHARED := 1], [Edge(FIRST, SHARED, "")], true)
  const TO_INNER := Outcome(map[SHARED := 1, INNER := 2], TO_SHARED.edges + [Edge(SHARED, INNER, "")], true)
  const CUT_SHORT := Outcome(map[SHARED := 1, INNER := 2, MISSING := 3], TO_INNER.edges, false)

  lemma DeepRanked()
    ensures Ranked(DEEP, DEPTHS)
  {}

  lemma InnerFails()
    ensures Ranked(DEEP, DEPTHS) && Walked(DEEP, DEPTHS, 3, TO_INNER, INNER, 2, 0) == CUT_SHORT
  {
    DeepRanked();
    assert DEEP[INNER][0] == Link("", MISSING);
    assert Visited(DEEP, 3, TO_INNER, Edge(INNER, MISSING, ""), 3) == CUT_SHORT;
    assert WalkedLink(DEEP, DEPTHS, 3, TO_INNER, INNER, 2, 0) == CUT_SHORT;
    assert Walked(DEEP, DEPTHS, 3, TO_INNER, INNER, 2, 0) == Walked(DEEP, DEPTHS, 3, CUT_SHORT, INNER, 2, 1);
  }

  lemma SharedFails()
    ensures Ranked(DEEP, DEPTHS) && Walked(DEEP, DEPTHS, 3, TO_SHARED, SHARED, 1, 0) == CUT_SHORT
  {
    InnerFails();
    assert DEEP[SHARED][0] == Link("", INNER);
    assert Visited(DEEP, 3, TO_SHARED, Edge(SHARED, INNER, ""), 2) == TO_INNER;
    assert WalkedLink(DEEP, DEPTHS, 3, TO_SHARED, SHARED, 1, 0) == CUT_SHORT;
    assert Walked(DEEP, DEPTHS, 3, TO_SHARED, SHARED, 1, 0) == Walked(DEEP, DEPTHS, 3, CUT_SHORT, SHARED, 1, 1);
  }

  lemma FirstCutShort()
    ensures Ranked(DEEP, DEPTHS) && Walked(DEEP, DEPTHS, 3, EMPTY, FIRST, 0, 0) == CUT_SHORT
  {
    SharedFails();
    assert DEEP[FIRST][0] == Link("", SHARED);
    assert Visited(DEEP, 3, EMPTY, Edge(FIRST, SHARED, ""), 1) == TO_SHARED;
    assert WalkedLink(DEEP, DEPTHS, 3, EMPTY, FIRST, 0, 0) == CUT_SHORT;
    assert Walked(DEEP, DEPTHS, 3, EMPTY, FIRST, 0, 0) == Walked(DEEP, DEPTHS, 3, CUT_SHORT, FIRST, 0, 1);
  }

  const STEPPED :=
    Outcome(map[SHARED := 1, INNER := 2, MISSING := 3, STEP := 1], TO_INNER.edges + [Edge(SECOND, STEP, "")], true)

  lemma SecondIsPruned()
    ensures Ranked(DEEP, DEPTHS) && Walked(DEEP, DEPTHS, 3, CUT_SHORT.(ok := true), SECOND, 0, 0) == STEPPED
  {
    DeepRanked();
    var o := CUT_SHORT.(ok := true);
    assert DEEP[SECOND][0] == Link("", STEP) && DEEP[STEP][0] == Link("", SHARED);
    assert Visited(DEEP, 3, o, Edge(SECOND, STEP, ""), 1) == STEPPED;
    assert Visited(DEEP, 3, STEPPED, Edge(STEP, SHARED, ""), 2) == STEPPED;
    assert WalkedLink(DEEP, DEPTHS, 3, STEPPED, STEP, 1, 0) == STEPPED;
    assert Walked(DEEP, DEPTHS, 3, STEPPED, STEP, 1, 0) == Walked(DEEP, DEPTHS, 3, STEPPED, STEP, 1, 1);
    assert WalkedLink(DEEP, DEPTHS, 3, o, SECOND, 0, 0) == STEPPED;
    assert Walked(DEEP, DEPTHS, 3, o, SECOND, 0, 0) == Walked(DEEP, DEPTHS, 3, STEPPED, SECOND, 0, 1);
  }

  lemma StepsFromSecond(c: Cid, n: nat)
    requires Reaches(DEEP, {SECOND}, c, n)
    ensures n == 1 ==> c == STEP
    ensures n == 2 ==> c == SHARED
    ensures n == 3 ==> c == INNER || c == LEAF
    decreases n
  {
    if 1 <= n <= 3 {
      var m :| HasLink(DEEP, m, c) && Reaches(DEEP, {SECOND}, m, n - 1);
      StepsFromSecond(m, n - 1);
    }
  }

  lemma LeafInDeepScope()
    ensures ScopeFetchable(DEEP, Paths(DEEP, {SECOND}), 3) && OwnScope(DEEP, 3, SECOND, LEAF)
  {
    forall c | InScope(Paths(DEEP, {SECOND}), 3, c)
      ensures c in DEEP
    {
      var n: nat :| 1 <= n && Within(3, n) && (c, n) in Paths(DEEP, {SECOND});
      StepsFromSecond(c, n);
    }
    assert DEEP[SECOND][0].cid == STEP && DEEP[STEP][0].cid == SHARED && DEEP[SHARED][1].cid == LEAF;
    assert HasLink(DEEP, SECOND, STEP) && HasLink(DEEP, STEP, SHARED) && HasLink(DEEP, SHARED, LEAF);
    assert Reaches(DEEP, {SECOND}, SECOND, 0);
    assert Reaches(DEEP, {SECOND}, STEP, 1);
    assert Reaches(DEEP, {SECOND}, SHARED, 2);
    assert Reaches(DEEP, {SECOND}, LEAF, 3);
    assert (LEAF, 3) in Paths(DEEP, {SECOND});
  }

  lemma BothWalked()
    ensures Ranked(DEEP, DEPTHS) && WalkedRoots(DEEP, DEPTHS, 3, [FIRST, SECOND]) == STEPPED
  {
    FirstCutShort();
    SecondIsPruned();
    assert [FIRST, SECOND][..1] == [FIRST] && [FIRST][..0] == [];
    assert WalkedRoots(DEEP, DEPTHS, 3, [FIRST]) == CUT_SHORT.(ok := true);
  }

  /**
   With a limit it is not enough that a root's own scope can be fetched: another root's failure can still cost it a
   node.
   */
  lemma FetchableScopeCanBeMissed()
    ensures Ranked(DEEP, DEPTHS) && SECOND in DEEP && ScopeFetchable(DEEP, Paths(DEEP, {SECOND}), 3)
    ensures OwnScope(DEEP, 3, SECOND, LEAF) && !Writes(WalkedRoots(DEEP, DEPTHS, 3, [FIRST, SECOND]).edges, LEAF)
  {
    LeafInDeepScope();
    BothWalked();
  }
}
