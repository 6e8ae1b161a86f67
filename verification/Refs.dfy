/**
 The depth-limited reference traversal behind `ipfs refs` (core/commands/refs.go).

 `RefWriter` walks a DAG depth first. With `unique` set it prunes: a CID already seen is skipped, unless it is
 now reached at a smaller depth and the depth is limited, in which case it is explored again but not written again.
 */
module Refs {
  import opened Ipld

  /** One written reference: the arguments of WriteEdge. */
  datatype Edge = Edge(src: Cid, dst: Cid, name: string)

  predicate Unlimited(maxDepth: int) { maxDepth < 0 }

  /** Depth `k` is one the traversal may write at. */
  predicate Within(maxDepth: int, k: int) { Unlimited(maxDepth) || k <= maxDepth }

  /** Pairs (c, n) such that a path of n links leads from a root to c. */
  ghost function Paths(g: Dag, roots: set<Cid>): iset<(Cid, nat)> {
    iset c: Cid, n: nat | Reaches(g, roots, c, n) :: (c, n)
  }

  ghost predicate FollowsLinks(g: Dag, paths: iset<(Cid, nat)>) {
    forall m, c, n :: (m, n) in paths && HasLink(g, m, c) ==> (c, n + 1) in paths
  }

  /** The traversal owes `c` to its caller: some path of length 1..maxDepth leads to it. */
  ghost predicate InScope(paths: iset<(Cid, nat)>, maxDepth: int, c: Cid) {
    exists n: nat :: 1 <= n && (maxDepth < 0 || n <= maxDepth) && (c, n) in paths
  }

  ghost predicate ScopeFetchable(g: Dag, paths: iset<(Cid, nat)>, maxDepth: int) {
    forall c :: InScope(paths, maxDepth, c) ==> c in g
  }

  /** `n` is the length of the shortest non-empty path to `c`. */
  ghost predicate Shortest(paths: iset<(Cid, nat)>, c: Cid, n: nat) {
    && 1 <= n && (c, n) in paths
    && forall k: nat :: 1 <= k && (c, k) in paths ==> n <= k
  }

  // ---------------------------------------------------------------- the table of seen CIDs

  type Seen = map<Cid, nat>

  /** A visit to `c` at depth `k` would be pruned. */
  predicate Covered(seen: Seen, maxDepth: int, c: Cid, k: nat) {
    c in seen && (Unlimited(maxDepth) || seen[c] <= k)
  }

  predicate Pruned(unique: bool, maxDepth: int, seen: Seen, c: Cid, k: nat) {
    !Within(maxDepth, k) || (unique && Covered(seen, maxDepth, c, k))
  }

  ghost predicate LinksCovered(g: Dag, seen: Seen, maxDepth: int, c: Cid, k: nat) {
    c in g && forall i :: 0 <= i < |g[c]| ==> Covered(seen, maxDepth, g[c][i].cid, k + 1)
  }

  /** `c` needs no more exploring: its links are covered, or lie beyond the depth limit. */
  ghost predicate Explored(g: Dag, seen: Seen, maxDepth: int, c: Cid)
    requires c in seen
  {
    Within(maxDepth, seen[c] + 1) ==> LinksCovered(g, seen, maxDepth, c, seen[c])
  }

  ghost predicate Grows(before: Seen, after: Seen) {
    forall c :: c in before ==> c in after && after[c] <= before[c]
  }

  lemma GrowsTwice(a: Seen, b: Seen, c: Seen)
    requires Grows(a, b) && Grows(b, c)
    ensures Grows(a, c)
  {}

  ghost predicate Touched(before: Seen, after: Seen, c: Cid) {
    c in after && !(c in before && before[c] == after[c])
  }

  /** Everything entered since `before` is explored. This is what one call leaves behind, whatever it started from. */
  ghost predicate SettledSince(g: Dag, before: Seen, after: Seen, maxDepth: int) {
    forall c :: Touched(before, after, c) ==> Explored(g, after, maxDepth, c)
  }

  /** Each entry is the length of a real path, within the limit. */
  ghost predicate Sound(paths: iset<(Cid, nat)>, seen: Seen, maxDepth: int) {
    forall c :: c in seen ==> 1 <= seen[c] && Within(maxDepth, seen[c]) && (c, seen[c]) in paths
  }

  /** Entering `c` at depth `k` and then exploring below it leaves everything entered since `start` explored. */
  lemma DescendSettles(g: Dag, start: Seen, before: Seen, after: Seen, maxDepth: int, c: Cid, k: nat)
    requires Grows(start, before) && SettledSince(g, start, before, maxDepth)
    requires !Covered(before, maxDepth, c, k)
    requires Grows(before[c := k], after) && SettledSince(g, before[c := k], after, maxDepth)
    requires Within(maxDepth, k + 1) ==> LinksCovered(g, after, maxDepth, c, k)
    ensures Grows(start, after) && Grows(before, after)
    ensures SettledSince(g, start, after, maxDepth)
    ensures Covered(after, maxDepth, c, k)
  {
    forall x | Touched(start, after, x)
      ensures Explored(g, after, maxDepth, x)
    {
      if !Touched(before[c := k], after, x) && x != c {
        assert Touched(start, before, x);
        assert Explored(g, before, maxDepth, x);
      }
    }
  }

  /** What the table holds once every root has been walked: all of the scope, at the shortest depth. */
  lemma {:induction false} ScopeIsCovered(g: Dag, roots: set<Cid>, seen: Seen, maxDepth: int, c: Cid, n: nat)
    requires forall r :: r in roots && Within(maxDepth, 1) ==> LinksCovered(g, seen, maxDepth, r, 0)
    requires forall m :: m in seen ==> Explored(g, seen, maxDepth, m)
    requires 1 <= n && Within(maxDepth, n) && Reaches(g, roots, c, n)
    ensures Covered(seen, maxDepth, c, n)
    decreases n
  {
    var m :| HasLink(g, m, c) && Reaches(g, roots, m, n - 1);
    if n > 1 {
      ScopeIsCovered(g, roots, seen, maxDepth, m, n - 1);
      assert LinksCovered(g, seen, maxDepth, m, seen[m]);
    }
  }

  // ---------------------------------------------------------------- what has been written

  predicate DistinctTargets(edges: seq<Edge>) {
    forall i, j :: 0 <= i < j < |edges| ==> edges[i].dst != edges[j].dst
  }

  predicate Writes(edges: seq<Edge>, c: Cid) {
    exists i :: 0 <= i < |edges| && edges[i].dst == c
  }

  lemma PrefixTwice(a: seq<Edge>, b: seq<Edge>, c: seq<Edge>)
    requires a <= b <= c
    ensures a <= c
  {}

  /** A link of a fetched node to a node that was fetched too. */
  predicate IsEdge(g: Dag, e: Edge) {
    e.src in g && e.dst in g && Link(e.name, e.dst) in g[e.src]
  }

  predicate RealEdges(g: Dag, edges: seq<Edge>) {
    forall i :: 0 <= i < |edges| ==> IsEdge(g, edges[i])
  }

  /** The table and the output agree, and neither claims more than the graph holds. */
  ghost predicate Consistent(paths: iset<(Cid, nat)>, maxDepth: int, seen: Seen, edges: seq<Edge>) {
    && Sound(paths, seen, maxDepth)
    && DistinctTargets(edges)
    && forall i :: 0 <= i < |edges| ==> edges[i].dst in seen
  }

  ghost predicate AllWritten(seen: Seen, edges: seq<Edge>) {
    forall c :: c in seen ==> Writes(edges, c)
  }

  /**
   What a call with `unique` set does to the table and the output. When it succeeds nothing entered is left half done.
   */
  ghost predicate Advances(g: Dag, maxDepth: int, seen: Seen, edges: seq<Edge>, seen': Seen, edges': seq<Edge>,
                           ok: bool) {
    && Grows(seen, seen')
    && (ok ==> SettledSince(g, seen, seen', maxDepth))
    && WritesNew(seen, edges, seen', edges', ok)
  }

  /** What is written is new to the table, and on success all that is new to the table is written. */
  ghost predicate WritesNew(seen: Seen, edges: seq<Edge>, seen': Seen, edges': seq<Edge>, ok: bool) {
    && edges <= edges'
    && (forall i :: |edges| <= i < |edges'| ==> edges'[i].dst !in seen)
    && (ok ==> forall c :: c in seen' && c !in seen ==> Writes(edges', c))
  }

  lemma StillWrites(edges: seq<Edge>, edges': seq<Edge>, c: Cid)
    requires edges <= edges' && Writes(edges, c)
    ensures Writes(edges', c)
  {
    var i :| 0 <= i < |edges| && edges[i].dst == c;
    assert edges'[i].dst == c;
  }

  lemma WritesNewTwice(s0: Seen, e0: seq<Edge>, s1: Seen, e1: seq<Edge>, s2: Seen, e2: seq<Edge>, ok: bool)
    requires Grows(s0, s1) && WritesNew(s0, e0, s1, e1, true) && WritesNew(s1, e1, s2, e2, ok)
    ensures WritesNew(s0, e0, s2, e2, ok)
  {
    forall i | |e0| <= i < |e2|
      ensures e2[i].dst !in s0
    {
      if i < |e1| {
        assert e2[i] == e1[i];
      }
    }
    if ok {
      forall c | c in s2 && c !in s0
        ensures Writes(e2, c)
      {
        if c in s1 {
          StillWrites(e1, e2, c);
        }
      }
    }
  }

  lemma AdvancesTwice(g: Dag, maxDepth: int, s0: Seen, e0: seq<Edge>, s1: Seen, e1: seq<Edge>, s2: Seen, e2: seq<Edge>,
                      ok: bool)
    requires Advances(g, maxDepth, s0, e0, s1, e1, true) && Advances(g, maxDepth, s1, e1, s2, e2, ok)
    ensures Advances(g, maxDepth, s0, e0, s2, e2, ok)
  {
    WritesNewTwice(s0, e0, s1, e1, s2, e2, ok);
    if ok {
      forall x | Touched(s0, s2, x)
        ensures Explored(g, s2, maxDepth, x)
      {
        if !Touched(s1, s2, x) {
          assert Touched(s0, s1, x);
          assert Explored(g, s1, maxDepth, x);
        }
      }
    }
  }

  /** Recording a visit, and writing the CID if it is new, keeps the table and the output in agreement. */
  lemma VisitConsistent(paths: iset<(Cid, nat)>, maxDepth: int, seen: Seen, edges: seq<Edge>, edge: Edge, k: nat)
    requires Consistent(paths, maxDepth, seen, edges)
    requires 1 <= k && Within(maxDepth, k) && (edge.dst, k) in paths
    ensures Consistent(paths, maxDepth, seen[edge.dst := k], edges)
    ensures edge.dst !in seen ==> Consistent(paths, maxDepth, seen[edge.dst := k], edges + [edge])
    ensures WritesNew(seen, edges, seen[edge.dst := k], if edge.dst in seen then edges else edges + [edge], true)
  {
    var edges' := if edge.dst in seen then edges else edges + [edge];
    if edge.dst !in seen {
      assert edges'[|edges|].dst == edge.dst;
    }
  }

  /** Recording a visit to the target of `edge` and then exploring below it. */
  lemma LinkAdvances(g: Dag, maxDepth: int, seen: Seen, edges: seq<Edge>, mid: seq<Edge>, seen': Seen,
                     edges': seq<Edge>,
                     edge: Edge, k: nat, ok: bool)
    requires !Covered(seen, maxDepth, edge.dst, k)
    requires WritesNew(seen, edges, seen[edge.dst := k], mid, true)
    requires Advances(g, maxDepth, seen[edge.dst := k], mid, seen', edges', ok)
    requires ok && Within(maxDepth, k + 1) ==> LinksCovered(g, seen', maxDepth, edge.dst, k)
    ensures Advances(g, maxDepth, seen, edges, seen', edges', ok)
    ensures Covered(seen', maxDepth, edge.dst, k)
  {
    WritesNewTwice(seen, edges, seen[edge.dst := k], mid, seen', edges', ok);
    if ok {
      DescendSettles(g, seen, seen, seen', maxDepth, edge.dst, k);
    }
  }

  // ---------------------------------------------------------------- the unpruned traversal

  /** Edges written in order, and whether the traversal got to the end. */
  datatype Trace = Trace(edges: seq<Edge>, ok: bool)

  function Then(first: Trace, rest: Trace): Trace {
    if first.ok then Trace(first.edges + rest.edges, rest.ok) else first
  }

  lemma ThenAssociates(a: Trace, b: Trace, c: Trace)
    ensures Then(Then(a, b), c) == Then(a, Then(b, c))
  {}

  /** Plain depth-first preorder with no table, from link `i` of `c` on. A node that cannot be fetched ends it. */
  ghost function Unpruned(g: Dag, rank: Cid -> nat, maxDepth: int, c: Cid, depth: nat, i: nat): (t: Trace)
    requires Ranked(g, rank) && c in g && i <= |g[c]|
    decreases rank(c), 1, |g[c]| - i
  {
    if i == |g[c]| then Trace([], true)
    else Then(UnprunedLink(g, rank, maxDepth, c, depth, i), Unpruned(g, rank, maxDepth, c, depth, i + 1))
  }

  ghost function UnprunedLink(g: Dag, rank: Cid -> nat, maxDepth: int, c: Cid, depth: nat, i: nat): (t: Trace)
    requires Ranked(g, rank) && c in g && i < |g[c]|
    decreases rank(c), 0, 0
  {
    var link := g[c][i];
    if !Within(maxDepth, depth + 1) then Trace([], true)
    else if link.cid !in g then Trace([], false)
    else
      Then(Trace([Edge(c, link.cid, link.name)], true),
           if Within(maxDepth, depth + 2) then Unpruned(g, rank, maxDepth, link.cid, depth + 1, 0) else Trace([], true))
  }

  /** The roots one after the other: a root that fails does not stop the next one. */
  ghost function UnprunedRoots(g: Dag, rank: Cid -> nat, maxDepth: int, roots: seq<Cid>): (t: Trace)
    requires Ranked(g, rank)
  {
    if roots == [] then Trace([], true)
    else
      var front := UnprunedRoots(g, rank, maxDepth, roots[..|roots| - 1]);
      var c := roots[|roots| - 1];
      if c !in g then Trace(front.edges, false)
      else
        var t := Unpruned(g, rank, maxDepth, c, 0, 0);
        Trace(front.edges + t.edges, front.ok && t.ok)
  }

  /** A completed traversal has been through every link: it wrote it, and holds all that lies below it. */
  lemma {:induction false} UnprunedHoldsLink(g: Dag, rank: Cid -> nat, maxDepth: int, c: Cid, depth: nat, i: nat,
                                             j: nat)
    requires Ranked(g, rank) && c in g && i <= j < |g[c]|
    requires Unpruned(g, rank, maxDepth, c, depth, i).ok && Within(maxDepth, depth + 1)
    ensures g[c][j].cid in g
    ensures Writes(Unpruned(g, rank, maxDepth, c, depth, i).edges, g[c][j].cid)
    ensures Within(maxDepth, depth + 2) ==>
              var below := Unpruned(g, rank, maxDepth, g[c][j].cid, depth + 1, 0);
              below.ok && forall e :: e in below.edges ==> e in Unpruned(g, rank, maxDepth, c, depth, i).edges
    decreases |g[c]| - i
  {
    var edges := Unpruned(g, rank, maxDepth, c, depth, i).edges;
    var first := UnprunedLink(g, rank, maxDepth, c, depth, i);
    var rest := Unpruned(g, rank, maxDepth, c, depth, i + 1);
    assert edges == first.edges + rest.edges;
    if i == j {
      assert edges[0].dst == g[c][j].cid;
    } else {
      UnprunedHoldsLink(g, rank, maxDepth, c, depth, i + 1, j);
      var k :| 0 <= k < |rest.edges| && rest.edges[k].dst == g[c][j].cid;
      assert edges[|first.edges| + k].dst == g[c][j].cid;
    }
  }

  lemma {:induction false} UnprunedRootsHoldRoot(g: Dag, rank: Cid -> nat, maxDepth: int, roots: seq<Cid>, c: Cid)
    requires Ranked(g, rank) && c in roots && UnprunedRoots(g, rank, maxDepth, roots).ok
    ensures c in g && Unpruned(g, rank, maxDepth, c, 0, 0).ok
    ensures forall e :: e in Unpruned(g, rank, maxDepth, c, 0, 0).edges ==>
              e in UnprunedRoots(g, rank, maxDepth, roots).edges
    decreases |roots|
  {
    if c != roots[|roots| - 1] {
      UnprunedRootsHoldRoot(g, rank, maxDepth, roots[..|roots| - 1], c);
    }
  }

  /** What the traversal below `c`, found at `depth`, writes is all in `edges`. */
  ghost predicate HoldsBelow(g: Dag, rank: Cid -> nat, maxDepth: int, c: Cid, depth: nat, edges: seq<Edge>)
    requires Ranked(g, rank) && c in g
  {
    Within(maxDepth, depth + 1) ==>
      var below := Unpruned(g, rank, maxDepth, c, depth, 0);
      below.ok && forall e :: e in below.edges ==> e in edges
  }

  lemma HoldsNext(g: Dag, rank: Cid -> nat, maxDepth: int, m: Cid, c: Cid, depth: nat, edges: seq<Edge>)
    requires Ranked(g, rank) && HasLink(g, m, c) && Within(maxDepth, depth + 1)
    requires HoldsBelow(g, rank, maxDepth, m, depth, edges)
    ensures c in g && HoldsBelow(g, rank, maxDepth, c, depth + 1, edges) && Writes(edges, c)
  {
    var j :| 0 <= j < |g[m]| && g[m][j].cid == c;
    UnprunedHoldsLink(g, rank, maxDepth, m, depth, 0, j);
    WritesAmong(Unpruned(g, rank, maxDepth, m, depth, 0).edges, edges, c);
  }

  lemma WritesAmong(some: seq<Edge>, edges: seq<Edge>, c: Cid)
    requires (forall e :: e in some ==> e in edges) && Writes(some, c)
    ensures Writes(edges, c)
  {
    var k :| 0 <= k < |some| && some[k].dst == c;
    assert some[k] in edges;
  }

  lemma {:induction false} UnprunedHoldsPath(g: Dag, rank: Cid -> nat, maxDepth: int, roots: seq<Cid>, c: Cid, n: nat)
    requires Ranked(g, rank) && UnprunedRoots(g, rank, maxDepth, roots).ok
    requires Within(maxDepth, n) && Reaches(g, Elems(roots), c, n)
    ensures c in g && HoldsBelow(g, rank, maxDepth, c, n, UnprunedRoots(g, rank, maxDepth, roots).edges)
    ensures n >= 1 ==> Writes(UnprunedRoots(g, rank, maxDepth, roots).edges, c)
    decreases n
  {
    if n == 0 {
      UnprunedRootsHoldRoot(g, rank, maxDepth, roots, c);
    } else {
      var m :| HasLink(g, m, c) && Reaches(g, Elems(roots), m, n - 1);
      UnprunedHoldsPath(g, rank, maxDepth, roots, m, n - 1);
      HoldsNext(g, rank, maxDepth, m, c, n - 1, UnprunedRoots(g, rank, maxDepth, roots).edges);
    }
  }

  lemma {:induction false} UnprunedIsReal(g: Dag, rank: Cid -> nat, maxDepth: int, c: Cid, depth: nat, i: nat)
    requires Ranked(g, rank) && c in g && i <= |g[c]|
    ensures RealEdges(g, Unpruned(g, rank, maxDepth, c, depth, i).edges)
    decreases rank(c), |g[c]| - i
  {
    if i < |g[c]| {
      var link := g[c][i];
      if Within(maxDepth, depth + 2) && link.cid in g {
        UnprunedIsReal(g, rank, maxDepth, link.cid, depth + 1, 0);
      }
      assert link.cid in g ==> IsEdge(g, Edge(c, link.cid, link.name));
      assert RealEdges(g, UnprunedLink(g, rank, maxDepth, c, depth, i).edges);
      UnprunedIsReal(g, rank, maxDepth, c, depth, i + 1);
    }
  }

  /** Whatever the trace writes lies in scope, and it fails only if something in scope is missing. */
  ghost predicate TraceInScope(g: Dag, maxDepth: int, paths: iset<(Cid, nat)>, t: Trace) {
    (forall e :: e in t.edges ==> InScope(paths, maxDepth, e.dst)) && (t.ok || !ScopeFetchable(g, paths, maxDepth))
  }

  lemma ThenInScope(g: Dag, maxDepth: int, paths: iset<(Cid, nat)>, a: Trace, b: Trace)
    requires TraceInScope(g, maxDepth, paths, a) && (a.ok ==> TraceInScope(g, maxDepth, paths, b))
    ensures TraceInScope(g, maxDepth, paths, Then(a, b))
  {}

  lemma {:induction false} UnprunedLinkInScope(g: Dag, rank: Cid -> nat, maxDepth: int, c: Cid, depth: nat, i: nat,
                                               paths: iset<(Cid, nat)>)
    requires Ranked(g, rank) && c in g && i < |g[c]| && FollowsLinks(g, paths) && (c, depth) in paths
    ensures TraceInScope(g, maxDepth, paths, UnprunedLink(g, rank, maxDepth, c, depth, i))
    decreases rank(c), 0, 0
  {
    var link := g[c][i];
    assert HasLink(g, c, link.cid);
    if Within(maxDepth, depth + 1) {
      assert (link.cid, depth + 1) in paths && InScope(paths, maxDepth, link.cid);
      if link.cid in g && Within(maxDepth, depth + 2) {
        UnprunedInScope(g, rank, maxDepth, link.cid, depth + 1, 0, paths);
        ThenInScope(g, maxDepth, paths, Trace([Edge(c, link.cid, link.name)], true),
                    Unpruned(g, rank, maxDepth, link.cid, depth + 1, 0));
      }
    }
  }

  lemma {:induction false} UnprunedInScope(g: Dag, rank: Cid -> nat, maxDepth: int, c: Cid, depth: nat, i: nat,
                                           paths: iset<(Cid, nat)>)
    requires Ranked(g, rank) && c in g && i <= |g[c]| && FollowsLinks(g, paths) && (c, depth) in paths
    ensures TraceInScope(g, maxDepth, paths, Unpruned(g, rank, maxDepth, c, depth, i))
    decreases rank(c), 1, |g[c]| - i
  {
    if i < |g[c]| {
      UnprunedLinkInScope(g, rank, maxDepth, c, depth, i, paths);
      UnprunedInScope(g, rank, maxDepth, c, depth, i + 1, paths);
      ThenInScope(g, maxDepth, paths, UnprunedLink(g, rank, maxDepth, c, depth, i),
                  Unpruned(g, rank, maxDepth, c, depth, i + 1));
    }
  }

  lemma PathsFollowLinks(g: Dag, roots: set<Cid>)
    ensures FollowsLinks(g, Paths(g, roots))
    ensures forall r :: r in roots ==> (r, 0) in Paths(g, roots)
  {
    forall m, c, n | (m, n) in Paths(g, roots) && HasLink(g, m, c)
      ensures (c, n + 1) in Paths(g, roots)
    {
      assert Reaches(g, roots, m, n);
      assert Reaches(g, roots, c, n + 1);
    }
  }

  lemma {:induction false} UnprunedRootsInScope(g: Dag, rank: Cid -> nat, maxDepth: int, roots: seq<Cid>,
                                                paths: iset<(Cid, nat)>)
    requires Ranked(g, rank) && FollowsLinks(g, paths) && forall r :: r in roots ==> (r, 0) in paths
    ensures forall e :: e in UnprunedRoots(g, rank, maxDepth, roots).edges ==> InScope(paths, maxDepth, e.dst)
    ensures !UnprunedRoots(g, rank, maxDepth, roots).ok ==>
              !ScopeFetchable(g, paths, maxDepth) || exists r :: r in roots && r !in g
    decreases |roots|
  {
    if roots != [] {
      var c := roots[|roots| - 1];
      UnprunedRootsInScope(g, rank, maxDepth, roots[..|roots| - 1], paths);
      if c in g {
        UnprunedInScope(g, rank, maxDepth, c, 0, 0, paths);
      }
    }
  }

  /**
   The unpruned traversal completes exactly when everything in scope can be fetched, and a completed one writes
   exactly the CIDs in scope.
   */
  lemma UnprunedExact(g: Dag, rank: Cid -> nat, maxDepth: int, roots: seq<Cid>)
    requires Ranked(g, rank)
    ensures var paths, t := Paths(g, Elems(roots)), UnprunedRoots(g, rank, maxDepth, roots);
            && (t.ok <==> ScopeFetchable(g, paths, maxDepth) && Elems(roots) <= g.Keys)
            && (t.ok ==> forall c :: Writes(t.edges, c) <==> InScope(paths, maxDepth, c))
  {
    var paths, t := Paths(g, Elems(roots)), UnprunedRoots(g, rank, maxDepth, roots);
    PathsFollowLinks(g, Elems(roots));
    UnprunedRootsInScope(g, rank, maxDepth, roots, paths);
    if t.ok {
      forall c | InScope(paths, maxDepth, c)
        ensures Writes(t.edges, c) && c in g
      {
        var n: nat :| 1 <= n && Within(maxDepth, n) && (c, n) in paths;
        UnprunedHoldsPath(g, rank, maxDepth, roots, c, n);
      }
      forall c | Writes(t.edges, c)
        ensures InScope(paths, maxDepth, c)
      {
        var k :| 0 <= k < |t.edges| && t.edges[k].dst == c;
        assert t.edges[k] in t.edges;
      }
      forall r | r in roots
        ensures r in g
      {
        UnprunedRootsHoldRoot(g, rank, maxDepth, roots, r);
      }
    }
  }

  /** Once every root has been walked, a path of length n leads only to CIDs entered at depth n or less. */
  lemma PathsCovered(g: Dag, roots: seq<Cid>, maxDepth: int, seen: Seen, c: Cid, n: nat)
    requires SettledSince(g, map[], seen, maxDepth)
    requires Within(maxDepth, 1) ==> forall j :: 0 <= j < |roots| ==> LinksCovered(g, seen, maxDepth, roots[j], 0)
    requires 1 <= n && Within(maxDepth, n) && (c, n) in Paths(g, Elems(roots))
    ensures Covered(seen, maxDepth, c, n)
  {
    assert forall m :: m in seen ==> Touched(map[], seen, m);
    ScopeIsCovered(g, Elems(roots), seen, maxDepth, c, n);
  }

  lemma WrittenInScope(g: Dag, paths: iset<(Cid, nat)>, maxDepth: int, seen: Seen, edges: seq<Edge>, c: Cid)
    requires Consistent(paths, maxDepth, seen, edges) && RealEdges(g, edges) && Writes(edges, c)
    ensures c in seen && c in g && InScope(paths, maxDepth, c)
  {
    var i :| 0 <= i < |edges| && edges[i].dst == c;
    assert IsEdge(g, edges[i]);
    assert (c, seen[c]) in paths;
  }

  /** What the table and the output amount to once every root has been walked without a failure. */
  lemma PrunedExact(g: Dag, roots: seq<Cid>, maxDepth: int, seen: Seen, edges: seq<Edge>)
    requires Consistent(Paths(g, Elems(roots)), maxDepth, seen, edges) && RealEdges(g, edges)
    requires SettledSince(g, map[], seen, maxDepth) && AllWritten(seen, edges)
    requires Within(maxDepth, 1) ==> forall j :: 0 <= j < |roots| ==> LinksCovered(g, seen, maxDepth, roots[j], 0)
    ensures var paths := Paths(g, Elems(roots));
            && ScopeFetchable(g, paths, maxDepth)
            && (forall c :: Writes(edges, c) <==> InScope(paths, maxDepth, c))
            && (forall c :: c in seen <==> Writes(edges, c))
            && (!Unlimited(maxDepth) ==> forall c :: c in seen ==> Shortest(paths, c, seen[c]))
  {
    var paths := Paths(g, Elems(roots));
    forall c | Writes(edges, c)
      ensures c in seen && c in g && InScope(paths, maxDepth, c)
    {
      WrittenInScope(g, paths, maxDepth, seen, edges, c);
    }
    forall c | InScope(paths, maxDepth, c)
      ensures Writes(edges, c)
    {
      var n: nat :| 1 <= n && Within(maxDepth, n) && (c, n) in paths;
      PathsCovered(g, roots, maxDepth, seen, c, n);
    }
    if !Unlimited(maxDepth) {
      forall c, k: nat | c in seen && 1 <= k && (c, k) in paths
        ensures seen[c] <= k
      {
        if k <= maxDepth {
          PathsCovered(g, roots, maxDepth, seen, c, k);
        }
      }
    }
  }

  // ---------------------------------------------------------------- one root, from any table

  /** The walk does not stop at `m`, found after `n` links: it is the root, or the table does not cover it. */
  predicate Passes(seen: Seen, maxDepth: int, m: Cid, n: nat) { n == 0 || !Covered(seen, maxDepth, m, n) }

  /** A path of `n` links leads from `root` to `c`, and no node on the way is one that the table `seen` prunes. */
  ghost predicate ReachesPast(g: Dag, maxDepth: int, seen: Seen, root: Cid, c: Cid, n: nat)
    decreases n
  {
    if n == 0 then c == root
    else
      exists m :: HasLink(g, m, c) && ReachesPast(g, maxDepth, seen, root, m, n - 1) && Passes(seen, maxDepth, m, n - 1)
  }

  ghost predicate ReachedPast(g: Dag, maxDepth: int, seen: Seen, root: Cid, c: Cid) {
    exists n: nat :: 1 <= n && (maxDepth < 0 || n <= maxDepth) && ReachesPast(g, maxDepth, seen, root, c, n)
  }

  /** The paths that a walk from `root` may go, along with the entries of the table it starts from. */
  ghost function PastPaths(g: Dag, maxDepth: int, seen: Seen, root: Cid): iset<(Cid, nat)> {
    (iset c: Cid, n: nat | ReachesPast(g, maxDepth, seen, root, c, n) :: (c, n)) + iset c | c in seen :: (c, seen[c])
  }

  ghost predicate FollowsPast(g: Dag, maxDepth: int, start: Seen, paths: iset<(Cid, nat)>) {
    forall m, c, n :: (m, n) in paths && HasLink(g, m, c) && Passes(start, maxDepth, m, n) ==> (c, n + 1) in paths
  }

  lemma PastPathsFollow(g: Dag, maxDepth: int, seen: Seen, root: Cid)
    requires forall c :: c in seen ==> seen[c] >= 1
    ensures FollowsPast(g, maxDepth, seen, PastPaths(g, maxDepth, seen, root))
    ensures (root, 0) in PastPaths(g, maxDepth, seen, root)
  {
    var paths := PastPaths(g, maxDepth, seen, root);
    assert ReachesPast(g, maxDepth, seen, root, root, 0);
    forall m, c, n | (m, n) in paths && HasLink(g, m, c) && Passes(seen, maxDepth, m, n)
      ensures (c, n + 1) in paths
    {
      assert ReachesPast(g, maxDepth, seen, root, m, n);
      assert ReachesPast(g, maxDepth, seen, root, c, n + 1);
    }
  }

  lemma {:induction false} PastIsPath(g: Dag, maxDepth: int, seen: Seen, root: Cid, paths: iset<(Cid, nat)>, c: Cid,
                                      n: nat)
    requires FollowsLinks(g, paths) && (root, 0) in paths && ReachesPast(g, maxDepth, seen, root, c, n)
    ensures (c, n) in paths
    decreases n
  {
    if n > 0 {
      var m :| HasLink(g, m, c) && ReachesPast(g, maxDepth, seen, root, m, n - 1) && Passes(seen, maxDepth, m, n - 1);
      PastIsPath(g, maxDepth, seen, root, paths, m, n - 1);
    }
  }

  lemma PastIsPaths(g: Dag, maxDepth: int, seen: Seen, root: Cid, paths: iset<(Cid, nat)>)
    requires FollowsLinks(g, paths) && (root, 0) in paths && Sound(paths, seen, maxDepth)
    ensures PastPaths(g, maxDepth, seen, root) <= paths
  {
    forall x | x in PastPaths(g, maxDepth, seen, root)
      ensures x in paths
    {
      if ReachesPast(g, maxDepth, seen, root, x.0, x.1) {
        PastIsPath(g, maxDepth, seen, root, paths, x.0, x.1);
      }
    }
  }

  lemma FewerPaths(g: Dag, maxDepth: int, few: iset<(Cid, nat)>, many: iset<(Cid, nat)>, seen: Seen, edges: seq<Edge>)
    requires few <= many
    ensures Consistent(few, maxDepth, seen, edges) ==> Consistent(many, maxDepth, seen, edges)
    ensures !ScopeFetchable(g, few, maxDepth) ==> !ScopeFetchable(g, many, maxDepth)
  {
    forall c | InScope(few, maxDepth, c)
      ensures InScope(many, maxDepth, c)
    {
      var n: nat :| 1 <= n && Within(maxDepth, n) && (c, n) in few;
      assert (c, n) in many;
    }
  }

  /** After a successful walk everything on a path past the old table is covered by the new one. */
  lemma {:induction false} PastIsCovered(g: Dag, maxDepth: int, seen: Seen, seen': Seen, root: Cid, c: Cid, n: nat)
    requires SettledSince(g, seen, seen', maxDepth)
    requires (Within(maxDepth, 1) ==> LinksCovered(g, seen', maxDepth, root, 0))
    requires 1 <= n && Within(maxDepth, n) && ReachesPast(g, maxDepth, seen, root, c, n)
    ensures Covered(seen', maxDepth, c, n)
    decreases n
  {
    var m :| HasLink(g, m, c) && ReachesPast(g, maxDepth, seen, root, m, n - 1) && Passes(seen, maxDepth, m, n - 1);
    if n > 1 {
      PastIsCovered(g, maxDepth, seen, seen', root, m, n - 1);
      assert Touched(seen, seen', m);
      assert LinksCovered(g, seen', maxDepth, m, seen'[m]);
    }
  }

  lemma NewlyWritten(edges: seq<Edge>, edges': seq<Edge>, c: Cid)
    requires edges <= edges' && Writes(edges', c)
    ensures Writes(edges, c) || exists i :: |edges| <= i < |edges'| && edges'[i].dst == c
  {
    var i :| 0 <= i < |edges'| && edges'[i].dst == c;
    if i < |edges| {
      assert edges[i].dst == c;
    }
  }

  /** What a successful walk from any table writes: what is new to the table and lies on a path past it. */
  lemma RootExact(g: Dag, maxDepth: int, seen: Seen, edges: seq<Edge>, seen': Seen, edges': seq<Edge>, root: Cid,
                  c: Cid)
    requires Advances(g, maxDepth, seen, edges, seen', edges', true)
    requires Within(maxDepth, 1) ==> LinksCovered(g, seen', maxDepth, root, 0)
    requires Consistent(PastPaths(g, maxDepth, seen, root), maxDepth, seen', edges')
    ensures Writes(edges', c) <==> Writes(edges, c) || (c !in seen && ReachedPast(g, maxDepth, seen, root, c))
  {
    if Writes(edges, c) {
      StillWrites(edges, edges', c);
    } else if Writes(edges', c) {
      NewlyWritten(edges, edges', c);
      assert (c, seen'[c]) in PastPaths(g, maxDepth, seen, root);
    } else if c !in seen && ReachedPast(g, maxDepth, seen, root, c) {
      var n: nat :| 1 <= n && Within(maxDepth, n) && ReachesPast(g, maxDepth, seen, root, c, n);
      PastIsCovered(g, maxDepth, seen, seen', root, c, n);
    }
  }

  // ---------------------------------------------------------------- the pruned traversal, failures and all

  /** The table and the output, and whether the traversal got this far without a failure. */
  datatype Outcome = Outcome(seen: Seen, edges: seq<Edge>, ok: bool)

  /** From link `i` of `c` on, after `o`. */
  ghost function Walked(g: Dag, rank: Cid -> nat, maxDepth: int, o: Outcome, c: Cid, depth: nat, i: nat): Outcome
    requires Ranked(g, rank) && c in g && i <= |g[c]|
    decreases rank(c), 1, |g[c]| - i
  {
    if i == |g[c]| || !o.ok then o
    else Walked(g, rank, maxDepth, WalkedLink(g, rank, maxDepth, o, c, depth, i), c, depth, i + 1)
  }

  ghost function WalkedLink(g: Dag, rank: Cid -> nat, maxDepth: int, o: Outcome, c: Cid, depth: nat, i: nat): Outcome
    requires Ranked(g, rank) && c in g && i < |g[c]|
    decreases rank(c), 0, 0
  {
    var edge := Edge(c, g[c][i].cid, g[c][i].name);
    var v := Visited(g, maxDepth, o, edge, depth + 1);
    if v.ok && GoesDeeper(maxDepth, o, edge, depth + 1) then Walked(g, rank, maxDepth, v, edge.dst, depth + 1, 0) else v
  }

  predicate GoesDeeper(maxDepth: int, o: Outcome, edge: Edge, k: nat) {
    Within(maxDepth, k + 1) && !Covered(o.seen, maxDepth, edge.dst, k)
  }

  /** A visit to the target of `edge` at depth `k`: entered unless pruned, and then written if new. */
  function Visited(g: Dag, maxDepth: int, o: Outcome, edge: Edge, k: nat): (v: Outcome)
    ensures v.ok && GoesDeeper(maxDepth, o, edge, k) ==> edge.dst in g
  {
    if Pruned(true, maxDepth, o.seen, edge.dst, k) then Outcome(o.seen, o.edges, true)
    else if edge.dst in o.seen && !Within(maxDepth, k + 1) then Outcome(o.seen[edge.dst := k], o.edges, true)
    else if edge.dst !in g then Outcome(o.seen[edge.dst := k], o.edges, false)
    else Outcome(o.seen[edge.dst := k], if edge.dst in o.seen then o.edges else o.edges + [edge], true)
  }

  lemma {:induction false} WalkedIsReal(g: Dag, rank: Cid -> nat, maxDepth: int, o: Outcome, c: Cid, depth: nat, i: nat)
    requires Ranked(g, rank) && c in g && i <= |g[c]| && RealEdges(g, o.edges)
    ensures RealEdges(g, Walked(g, rank, maxDepth, o, c, depth, i).edges)
    decreases rank(c), 1, |g[c]| - i
  {
    if i < |g[c]| && o.ok {
      WalkedLinkIsReal(g, rank, maxDepth, o, c, depth, i);
      WalkedIsReal(g, rank, maxDepth, WalkedLink(g, rank, maxDepth, o, c, depth, i), c, depth, i + 1);
    }
  }

  lemma {:induction false} WalkedLinkIsReal(g: Dag, rank: Cid -> nat, maxDepth: int, o: Outcome, c: Cid, depth: nat,
                                            i: nat)
    requires Ranked(g, rank) && c in g && i < |g[c]| && RealEdges(g, o.edges)
    ensures RealEdges(g, WalkedLink(g, rank, maxDepth, o, c, depth, i).edges)
    decreases rank(c), 0, 0
  {
    var edge := Edge(c, g[c][i].cid, g[c][i].name);
    var v := Visited(g, maxDepth, o, edge, depth + 1);
    assert edge.dst in g ==> IsEdge(g, edge);
    assert RealEdges(g, v.edges);
    if v.ok && GoesDeeper(maxDepth, o, edge, depth + 1) {
      WalkedIsReal(g, rank, maxDepth, v, edge.dst, depth + 1, 0);
    }
  }

  /** One root after `o`. A failure is not passed on to the next root, but the table is. */
  ghost function WalkedRoot(g: Dag, rank: Cid -> nat, maxDepth: int, o: Outcome, root: Cid): Outcome
    requires Ranked(g, rank)
  {
    if root in g then Walked(g, rank, maxDepth, o, root, 0, 0).(ok := true) else o
  }

  ghost function WalkedRoots(g: Dag, rank: Cid -> nat, maxDepth: int, roots: seq<Cid>): Outcome
    requires Ranked(g, rank)
  {
    if roots == [] then Outcome(map[], [], true)
    else WalkedRoot(g, rank, maxDepth, WalkedRoots(g, rank, maxDepth, roots[..|roots| - 1]), roots[|roots| - 1])
  }

  /**
   What a stretch of the traversal makes of the table and the output; it fails only if something in scope is missing.
   */
  ghost predicate Proceeds(g: Dag, paths: iset<(Cid, nat)>, maxDepth: int, o: Outcome, o': Outcome) {
    && Consistent(paths, maxDepth, o'.seen, o'.edges) && (o'.ok || !ScopeFetchable(g, paths, maxDepth))
    && Advances(g, maxDepth, o.seen, o.edges, o'.seen, o'.edges, o'.ok)
  }

  /** The node at depth `depth` may be explored by a walk that began with the table `start`. */
  ghost predicate OnItsWay(g: Dag, maxDepth: int, start: Seen, paths: iset<(Cid, nat)>, o: Outcome, c: Cid,
                           depth: nat)
  {
    && FollowsPast(g, maxDepth, start, paths) && Grows(start, o.seen) && Consistent(paths, maxDepth, o.seen, o.edges)
    && (c, depth) in paths && Passes(start, maxDepth, c, depth) && Within(maxDepth, depth)
  }

  lemma VisitedEnters(g: Dag, maxDepth: int, paths: iset<(Cid, nat)>, o: Outcome, edge: Edge, k: nat)
    requires Consistent(paths, maxDepth, o.seen, o.edges) && o.ok && k >= 1 && (edge.dst, k) in paths
    requires edge.src in g && Link(edge.name, edge.dst) in g[edge.src] && !Pruned(true, maxDepth, o.seen, edge.dst, k)
    ensures var v := Visited(g, maxDepth, o, edge, k);
            && v.seen == o.seen[edge.dst := k]
            && Consistent(paths, maxDepth, v.seen, v.edges) && (v.ok || !ScopeFetchable(g, paths, maxDepth))
            && WritesNew(o.seen, o.edges, v.seen, v.edges, v.ok)
  {
    VisitConsistent(paths, maxDepth, o.seen, o.edges, edge, k);
    assert InScope(paths, maxDepth, edge.dst);
  }

  lemma StandsStill(g: Dag, paths: iset<(Cid, nat)>, maxDepth: int, o: Outcome)
    requires Consistent(paths, maxDepth, o.seen, o.edges) && o.ok
    ensures Proceeds(g, paths, maxDepth, o, o)
  {}

  /** The target of `edge` is entered into the table at depth `k`. */
  ghost predicate Enters(g: Dag, paths: iset<(Cid, nat)>, maxDepth: int, o: Outcome, edge: Edge, k: nat, v: Outcome) {
    && !Covered(o.seen, maxDepth, edge.dst, k) && v.seen == o.seen[edge.dst := k]
    && Consistent(paths, maxDepth, v.seen, v.edges) && (v.ok || !ScopeFetchable(g, paths, maxDepth))
    && WritesNew(o.seen, o.edges, v.seen, v.edges, v.ok)
  }

  lemma EnteringFails(g: Dag, paths: iset<(Cid, nat)>, maxDepth: int, o: Outcome, edge: Edge, k: nat, v: Outcome)
    requires Enters(g, paths, maxDepth, o, edge, k, v) && !v.ok
    ensures Proceeds(g, paths, maxDepth, o, v)
  {}

  lemma EntersAndProceeds(g: Dag, paths: iset<(Cid, nat)>, maxDepth: int, o: Outcome, edge: Edge, k: nat, v: Outcome,
                          o': Outcome)
    requires Enters(g, paths, maxDepth, o, edge, k, v) && v.ok && Proceeds(g, paths, maxDepth, v, o')
    requires o'.ok && Within(maxDepth, k + 1) ==> LinksCovered(g, o'.seen, maxDepth, edge.dst, k)
    ensures Proceeds(g, paths, maxDepth, o, o') && Covered(o'.seen, maxDepth, edge.dst, k)
  {
    LinkAdvances(g, maxDepth, o.seen, o.edges, v.edges, o'.seen, o'.edges, edge, k, o'.ok);
  }

  /** The links of `c` from index `i` on are covered, if they are within the limit. */
  ghost predicate LinksDone(g: Dag, maxDepth: int, seen: Seen, c: Cid, depth: nat, i: nat)
    requires c in g
  {
    Within(maxDepth, depth + 1) ==> forall j :: i <= j < |g[c]| ==> Covered(seen, maxDepth, g[c][j].cid, depth + 1)
  }

  // ---------------------------------------------------------------- induction over walks

  /**
   What is to be carried through a walk: `way` is known of a node before its links are walked, `link` of one link
   afterwards, and `rest` of the links from an index on.
   */
  datatype Scheme = Scheme(
    way: (Outcome, Cid, nat) -> bool,
    link: (Outcome, Edge, nat, Outcome) -> bool,
    rest: (Outcome, Cid, nat, nat, Outcome) -> bool)

  function EdgeAt(g: Dag, c: Cid, i: nat): Edge
    requires c in g && i < |g[c]|
  {
    Edge(c, g[c][i].cid, g[c][i].name)
  }

  /** At the end of the links. */
  ghost predicate Ends(g: Dag, p: Scheme, o: Outcome, c: Cid, k: nat) {
    c in g && o.ok && p.way(o, c, k) ==> p.rest(o, c, k, |g[c]|, o)
  }

  /** From one link to the next, or to its failure. */
  ghost predicate GoesOn(g: Dag, p: Scheme, o: Outcome, c: Cid, k: nat, i: nat, mid: Outcome) {
    c in g && i < |g[c]| && p.way(o, c, k) && p.link(o, EdgeAt(g, c, i), k, mid) ==>
      p.way(mid, c, k) && (mid.ok || p.rest(o, c, k, i, mid))
  }

  /** One link and the links after it. */
  ghost predicate Joins(g: Dag, p: Scheme, o: Outcome, c: Cid, k: nat, i: nat, mid: Outcome, o': Outcome) {
    c in g && i < |g[c]| && mid.ok && p.link(o, EdgeAt(g, c, i), k, mid) && p.rest(mid, c, k, i + 1, o') ==>
      p.rest(o, c, k, i, o')
  }

  /** A link that is walked no further, or whose target comes next. */
  ghost predicate Visits(g: Dag, maxDepth: int, p: Scheme, o: Outcome, c: Cid, k: nat, i: nat) {
    c in g && i < |g[c]| && o.ok && p.way(o, c, k) ==>
      var e := EdgeAt(g, c, i);
      var v := Visited(g, maxDepth, o, e, k + 1);
      if v.ok && GoesDeeper(maxDepth, o, e, k + 1) then p.way(v, e.dst, k + 1) else p.link(o, e, k, v)
  }

  /** A link whose target has been walked. */
  ghost predicate Returns(g: Dag, maxDepth: int, p: Scheme, o: Outcome, c: Cid, k: nat, i: nat, o': Outcome) {
    c in g && i < |g[c]| && o.ok && p.way(o, c, k) && GoesDeeper(maxDepth, o, EdgeAt(g, c, i), k + 1) ==>
      var e := EdgeAt(g, c, i);
      var v := Visited(g, maxDepth, o, e, k + 1);
      v.ok && p.rest(v, e.dst, k + 1, 0, o') ==> p.link(o, e, k, o')
  }

  ghost predicate Carries(g: Dag, maxDepth: int, p: Scheme) {
    && (forall o, c, k :: Ends(g, p, o, c, k))
    && (forall o, c, k, i, mid :: GoesOn(g, p, o, c, k, i, mid))
    && (forall o, c, k, i, mid, o' :: Joins(g, p, o, c, k, i, mid, o'))
    && (forall o, c, k, i :: Visits(g, maxDepth, p, o, c, k, i))
    && (forall o, c, k, i, o' :: Returns(g, maxDepth, p, o, c, k, i, o'))
  }

  ghost function Schemes(g: Dag, maxDepth: int): iset<Scheme> { iset p | Carries(g, maxDepth, p) }

  lemma {:induction false} WalkedLinkCarries(g: Dag, rank: Cid -> nat, maxDepth: int, p: Scheme, o: Outcome, c: Cid,
                                             k: nat, i: nat)
    requires Ranked(g, rank) && c in g && i < |g[c]| && o.ok && p in Schemes(g, maxDepth) && p.way(o, c, k)
    ensures p.link(o, EdgeAt(g, c, i), k, WalkedLink(g, rank, maxDepth, o, c, k, i))
    decreases rank(c), 0, 0
  {
    var e := EdgeAt(g, c, i);
    var v := Visited(g, maxDepth, o, e, k + 1);
    assert Visits(g, maxDepth, p, o, c, k, i);
    if v.ok && GoesDeeper(maxDepth, o, e, k + 1) {
      WalkedCarries(g, rank, maxDepth, p, v, e.dst, k + 1, 0);
      assert Returns(g, maxDepth, p, o, c, k, i, Walked(g, rank, maxDepth, v, e.dst, k + 1, 0));
    }
  }

  /** Whatever the rules of a scheme allow to be carried through a walk holds of it. */
  lemma {:induction false} WalkedCarries(g: Dag, rank: Cid -> nat, maxDepth: int, p: Scheme, o: Outcome, c: Cid, k: nat,
                                         i: nat)
    requires Ranked(g, rank) && c in g && i <= |g[c]| && o.ok && p in Schemes(g, maxDepth) && p.way(o, c, k)
    ensures p.rest(o, c, k, i, Walked(g, rank, maxDepth, o, c, k, i))
    decreases rank(c), 1, |g[c]| - i
  {
    if i == |g[c]| {
      assert Ends(g, p, o, c, k);
    } else {
      var mid := WalkedLink(g, rank, maxDepth, o, c, k, i);
      WalkedLinkCarries(g, rank, maxDepth, p, o, c, k, i);
      assert GoesOn(g, p, o, c, k, i, mid);
      if mid.ok {
        WalkedCarries(g, rank, maxDepth, p, mid, c, k, i + 1);
        assert Joins(g, p, o, c, k, i, mid, Walked(g, rank, maxDepth, mid, c, k, i + 1));
      }
    }
  }

  /** One link: all that it enters is explored, the link is covered, and what is written is what is new. */
  ghost predicate LinkProceeds(g: Dag, paths: iset<(Cid, nat)>, maxDepth: int, o: Outcome, e: Edge, k: nat,
                               o': Outcome)
  {
    && Proceeds(g, paths, maxDepth, o, o')
    && (o'.ok && Within(maxDepth, k + 1) ==> Covered(o'.seen, maxDepth, e.dst, k + 1))
  }

  /** The same for the links of a node from index `i` on. */
  ghost predicate LinksProceed(g: Dag, paths: iset<(Cid, nat)>, maxDepth: int, o: Outcome, c: Cid, k: nat, i: nat,
                               o': Outcome)
  {
    c in g && Proceeds(g, paths, maxDepth, o, o') && (o'.ok ==> LinksDone(g, maxDepth, o'.seen, c, k, i))
  }

  ghost function Proceeding(g: Dag, maxDepth: int, start: Seen, paths: iset<(Cid, nat)>): Scheme {
    Scheme((o: Outcome, c: Cid, k: nat) => OnItsWay(g, maxDepth, start, paths, o, c, k),
           (o: Outcome, e: Edge, k: nat, o': Outcome) => LinkProceeds(g, paths, maxDepth, o, e, k, o'),
           (o: Outcome, c: Cid, k: nat, i: nat, o': Outcome) => LinksProceed(g, paths, maxDepth, o, c, k, i, o'))
  }

  lemma WayGoesOn(g: Dag, maxDepth: int, start: Seen, paths: iset<(Cid, nat)>, o: Outcome, c: Cid, k: nat, e: Edge,
                  mid: Outcome)
    requires OnItsWay(g, maxDepth, start, paths, o, c, k) && LinkProceeds(g, paths, maxDepth, o, e, k, mid)
    ensures OnItsWay(g, maxDepth, start, paths, mid, c, k)
  {
    GrowsTwice(start, o.seen, mid.seen);
  }

  lemma ProceedsTwice(g: Dag, paths: iset<(Cid, nat)>, maxDepth: int, o: Outcome, mid: Outcome, o': Outcome, c: Cid,
                      k: nat, i: nat)
    requires c in g && i < |g[c]| && mid.ok && LinkProceeds(g, paths, maxDepth, o, EdgeAt(g, c, i), k, mid)
    requires LinksProceed(g, paths, maxDepth, mid, c, k, i + 1, o')
    ensures LinksProceed(g, paths, maxDepth, o, c, k, i, o')
  {
    AdvancesTwice(g, maxDepth, o.seen, o.edges, mid.seen, mid.edges, o'.seen, o'.edges, o'.ok);
  }

  /** From a node on its way to the target of one of its links, which is not pruned. */
  lemma EntersDown(g: Dag, maxDepth: int, start: Seen, paths: iset<(Cid, nat)>, o: Outcome, c: Cid, k: nat, i: nat)
    requires OnItsWay(g, maxDepth, start, paths, o, c, k) && o.ok && c in g && i < |g[c]|
    requires !Pruned(true, maxDepth, o.seen, EdgeAt(g, c, i).dst, k + 1)
    ensures Enters(g, paths, maxDepth, o, EdgeAt(g, c, i), k + 1, Visited(g, maxDepth, o, EdgeAt(g, c, i), k + 1))
  {
    assert HasLink(g, c, g[c][i].cid);
    VisitedEnters(g, maxDepth, paths, o, EdgeAt(g, c, i), k + 1);
  }

  lemma WayDown(g: Dag, maxDepth: int, start: Seen, paths: iset<(Cid, nat)>, o: Outcome, c: Cid, k: nat, i: nat)
    requires OnItsWay(g, maxDepth, start, paths, o, c, k) && o.ok && c in g && i < |g[c]|
    requires GoesDeeper(maxDepth, o, EdgeAt(g, c, i), k + 1)
    ensures var v := Visited(g, maxDepth, o, EdgeAt(g, c, i), k + 1);
            OnItsWay(g, maxDepth, start, paths, v, EdgeAt(g, c, i).dst, k + 1)
  {
    assert HasLink(g, c, g[c][i].cid);
    EntersDown(g, maxDepth, start, paths, o, c, k, i);
  }

  /** A link that is pruned, or whose target is entered but not explored: beyond it is the limit, or it is missing. */
  lemma ShallowProceeds(g: Dag, maxDepth: int, start: Seen, paths: iset<(Cid, nat)>, o: Outcome, c: Cid, k: nat, i: nat)
    requires OnItsWay(g, maxDepth, start, paths, o, c, k) && o.ok && c in g && i < |g[c]|
    requires var e := EdgeAt(g, c, i);
             || Pruned(true, maxDepth, o.seen, e.dst, k + 1) || !Visited(g, maxDepth, o, e, k + 1).ok
             || !Within(maxDepth, k + 2)
    ensures var e := EdgeAt(g, c, i); LinkProceeds(g, paths, maxDepth, o, e, k, Visited(g, maxDepth, o, e, k + 1))
  {
    var e := EdgeAt(g, c, i);
    var v := Visited(g, maxDepth, o, e, k + 1);
    if Pruned(true, maxDepth, o.seen, e.dst, k + 1) {
      StandsStill(g, paths, maxDepth, o);
    } else {
      EntersDown(g, maxDepth, start, paths, o, c, k, i);
      if v.ok {
        StandsStill(g, paths, maxDepth, v);
        EntersAndProceeds(g, paths, maxDepth, o, e, k + 1, v, v);
      } else {
        EnteringFails(g, paths, maxDepth, o, e, k + 1, v);
      }
    }
  }

  /** A link whose target is entered and explored. */
  lemma DeepProceeds(g: Dag, maxDepth: int, start: Seen, paths: iset<(Cid, nat)>, o: Outcome, c: Cid, k: nat, i: nat,
                     o': Outcome)
    requires OnItsWay(g, maxDepth, start, paths, o, c, k) && o.ok && c in g && i < |g[c]|
    requires GoesDeeper(maxDepth, o, EdgeAt(g, c, i), k + 1) && Visited(g, maxDepth, o, EdgeAt(g, c, i), k + 1).ok
    requires var e := EdgeAt(g, c, i);
             LinksProceed(g, paths, maxDepth, Visited(g, maxDepth, o, e, k + 1), e.dst, k + 1, 0, o')
    ensures LinkProceeds(g, paths, maxDepth, o, EdgeAt(g, c, i), k, o')
  {
    var e := EdgeAt(g, c, i);
    EntersDown(g, maxDepth, start, paths, o, c, k, i);
    EntersAndProceeds(g, paths, maxDepth, o, e, k + 1, Visited(g, maxDepth, o, e, k + 1), o');
  }

  lemma ProceedingCarries(g: Dag, maxDepth: int, start: Seen, paths: iset<(Cid, nat)>)
    ensures Proceeding(g, maxDepth, start, paths) in Schemes(g, maxDepth)
  {
    var p := Proceeding(g, maxDepth, start, paths);
    forall o, c, k
      ensures Ends(g, p, o, c, k)
    {
      ProceedingEnds(g, maxDepth, start, paths, o, c, k);
    }
    forall o, c, k, i, mid
      ensures GoesOn(g, p, o, c, k, i, mid)
    {
      ProceedingGoesOn(g, maxDepth, start, paths, o, c, k, i, mid);
    }
    forall o, c, k, i, mid, o'
      ensures Joins(g, p, o, c, k, i, mid, o')
    {
      ProceedingJoins(g, maxDepth, start, paths, o, c, k, i, mid, o');
    }
    forall o, c, k, i
      ensures Visits(g, maxDepth, p, o, c, k, i)
    {
      ProceedingVisits(g, maxDepth, start, paths, o, c, k, i);
    }
    forall o, c, k, i, o'
      ensures Returns(g, maxDepth, p, o, c, k, i, o')
    {
      ProceedingReturns(g, maxDepth, start, paths, o, c, k, i, o');
    }
  }

  lemma ProceedingEnds(g: Dag, maxDepth: int, start: Seen, paths: iset<(Cid, nat)>, o: Outcome, c: Cid, k: nat)
    ensures Ends(g, Proceeding(g, maxDepth, start, paths), o, c, k)
  {
    if c in g && o.ok && OnItsWay(g, maxDepth, start, paths, o, c, k) {
      StandsStill(g, paths, maxDepth, o);
    }
  }

  lemma ProceedingGoesOn(g: Dag, maxDepth: int, start: Seen, paths: iset<(Cid, nat)>, o: Outcome, c: Cid, k: nat,
                         i: nat, mid: Outcome)
    ensures GoesOn(g, Proceeding(g, maxDepth, start, paths), o, c, k, i, mid)
  {
    if c in g && i < |g[c]| && OnItsWay(g, maxDepth, start, paths, o, c, k) {
      if LinkProceeds(g, paths, maxDepth, o, EdgeAt(g, c, i), k, mid) {
        WayGoesOn(g, maxDepth, start, paths, o, c, k, EdgeAt(g, c, i), mid);
      }
    }
  }

  lemma ProceedingJoins(g: Dag, maxDepth: int, start: Seen, paths: iset<(Cid, nat)>, o: Outcome, c: Cid, k: nat, i: nat,
                        mid: Outcome, o': Outcome)
    ensures Joins(g, Proceeding(g, maxDepth, start, paths), o, c, k, i, mid, o')
  {
    if c in g && i < |g[c]| && mid.ok && LinkProceeds(g, paths, maxDepth, o, EdgeAt(g, c, i), k, mid) {
      if LinksProceed(g, paths, maxDepth, mid, c, k, i + 1, o') {
        ProceedsTwice(g, paths, maxDepth, o, mid, o', c, k, i);
      }
    }
  }

  lemma ProceedingVisits(g: Dag, maxDepth: int, start: Seen, paths: iset<(Cid, nat)>, o: Outcome, c: Cid, k: nat,
                         i: nat)
    ensures Visits(g, maxDepth, Proceeding(g, maxDepth, start, paths), o, c, k, i)
  {
    if c in g && i < |g[c]| && o.ok && OnItsWay(g, maxDepth, start, paths, o, c, k) {
      var e := EdgeAt(g, c, i);
      if Visited(g, maxDepth, o, e, k + 1).ok && GoesDeeper(maxDepth, o, e, k + 1) {
        WayDown(g, maxDepth, start, paths, o, c, k, i);
      } else {
        ShallowProceeds(g, maxDepth, start, paths, o, c, k, i);
      }
    }
  }

  lemma ProceedingReturns(g: Dag, maxDepth: int, start: Seen, paths: iset<(Cid, nat)>, o: Outcome, c: Cid, k: nat,
                          i: nat, o': Outcome)
    ensures Returns(g, maxDepth, Proceeding(g, maxDepth, start, paths), o, c, k, i, o')
  {
    if c in g && i < |g[c]| && o.ok && OnItsWay(g, maxDepth, start, paths, o, c, k) {
      var e := EdgeAt(g, c, i);
      var v := Visited(g, maxDepth, o, e, k + 1);
      if GoesDeeper(maxDepth, o, e, k + 1) && v.ok && LinksProceed(g, paths, maxDepth, v, e.dst, k + 1, 0, o') {
        DeepProceeds(g, maxDepth, start, paths, o, c, k, i, o');
      }
    }
  }

  /** The links of a node from index `i` on, from whatever table. */
  lemma WalkedProceeds(g: Dag, rank: Cid -> nat, maxDepth: int, start: Seen, paths: iset<(Cid, nat)>, o: Outcome,
                       c: Cid, depth: nat, i: nat)
    requires Ranked(g, rank) && c in g && i <= |g[c]| && o.ok && OnItsWay(g, maxDepth, start, paths, o, c, depth)
    ensures LinksProceed(g, paths, maxDepth, o, c, depth, i, Walked(g, rank, maxDepth, o, c, depth, i))
  {
    var p := Proceeding(g, maxDepth, start, paths);
    ProceedingCarries(g, maxDepth, start, paths);
    assert p.way(o, c, depth);
    WalkedCarries(g, rank, maxDepth, p, o, c, depth, i);
    assert p.rest(o, c, depth, i, Walked(g, rank, maxDepth, o, c, depth, i));
  }

  /** The whole walk of a root, in terms of all the paths there are. */
  lemma RootProceeds(g: Dag, rank: Cid -> nat, maxDepth: int, paths: iset<(Cid, nat)>, o: Outcome, root: Cid)
    requires Ranked(g, rank) && root in g && o.ok && FollowsLinks(g, paths) && (root, 0) in paths
    requires Consistent(paths, maxDepth, o.seen, o.edges)
    ensures var o' := Walked(g, rank, maxDepth, o, root, 0, 0);
            && Proceeds(g, paths, maxDepth, o, o')
            && (o'.ok && Within(maxDepth, 1) ==> LinksCovered(g, o'.seen, maxDepth, root, 0))
            && (o'.ok ==> forall x :: Writes(o'.edges, x) <==>
                  Writes(o.edges, x) || (x !in o.seen && ReachedPast(g, maxDepth, o.seen, root, x)))
  {
    var o', past := Walked(g, rank, maxDepth, o, root, 0, 0), PastPaths(g, maxDepth, o.seen, root);
    PastPathsFollow(g, maxDepth, o.seen, root);
    PastIsPaths(g, maxDepth, o.seen, root, paths);
    WalkedProceeds(g, rank, maxDepth, o.seen, past, o, root, 0, 0);
    FewerPaths(g, maxDepth, past, paths, o'.seen, o'.edges);
    if o'.ok {
      forall x
        ensures Writes(o'.edges, x) <==>
                  Writes(o.edges, x) || (x !in o.seen && ReachedPast(g, maxDepth, o.seen, root, x))
      {
        RootExact(g, maxDepth, o.seen, o.edges, o'.seen, o'.edges, root, x);
      }
    }
  }

  ghost predicate RootOk(g: Dag, rank: Cid -> nat, maxDepth: int, o: Outcome, root: Cid)
    requires Ranked(g, rank)
  {
    root in g && Walked(g, rank, maxDepth, o, root, 0, 0).ok
  }

  ghost predicate RootsOk(g: Dag, rank: Cid -> nat, maxDepth: int, roots: seq<Cid>)
    requires Ranked(g, rank)
  {
    roots != [] ==>
      var front := roots[..|roots| - 1];
      && RootsOk(g, rank, maxDepth, front)
      && RootOk(g, rank, maxDepth, WalkedRoots(g, rank, maxDepth, front), roots[|roots| - 1])
  }

  /** Every root can be fetched and has its links covered. */
  ghost predicate RootsCovered(g: Dag, maxDepth: int, seen: Seen, roots: seq<Cid>) {
    && (forall r :: r in roots ==> r in g)
    && (Within(maxDepth, 1) ==> forall j :: 0 <= j < |roots| ==> LinksCovered(g, seen, maxDepth, roots[j], 0))
  }

  lemma CoversOneMore(g: Dag, maxDepth: int, seen: Seen, seen': Seen, roots: seq<Cid>)
    requires roots != [] && Grows(seen, seen') && RootsCovered(g, maxDepth, seen, roots[..|roots| - 1])
    requires RootsCovered(g, maxDepth, seen', [roots[|roots| - 1]])
    ensures RootsCovered(g, maxDepth, seen', roots)
  {
    var front := roots[..|roots| - 1];
    assert roots == front + [roots[|roots| - 1]];
    assert [roots[|roots| - 1]][0] == roots[|roots| - 1];
    forall j | 0 <= j < |roots| && Within(maxDepth, 1)
      ensures LinksCovered(g, seen', maxDepth, roots[j], 0)
    {
      if j < |front| {
        assert LinksCovered(g, seen, maxDepth, front[j], 0);
      }
    }
  }

  /** The walks of all roots, one after the other. */
  lemma {:induction false} RootsProceed(g: Dag, rank: Cid -> nat, maxDepth: int, paths: iset<(Cid, nat)>,
                                        roots: seq<Cid>)
    requires Ranked(g, rank) && FollowsLinks(g, paths) && forall r :: r in roots ==> (r, 0) in paths
    ensures var o := WalkedRoots(g, rank, maxDepth, roots);
            && o.ok && Consistent(paths, maxDepth, o.seen, o.edges)
            && (RootsOk(g, rank, maxDepth, roots) ==>
                  Advances(g, maxDepth, map[], [], o.seen, o.edges, true) && RootsCovered(g, maxDepth, o.seen, roots))
            && (|| RootsOk(g, rank, maxDepth, roots) || !ScopeFetchable(g, paths, maxDepth)
                || exists r :: r in roots && r !in g)
    decreases |roots|
  {
    if roots != [] {
      var front, root := roots[..|roots| - 1], roots[|roots| - 1];
      var o, o' := WalkedRoots(g, rank, maxDepth, front), WalkedRoots(g, rank, maxDepth, roots);
      RootsProceed(g, rank, maxDepth, paths, front);
      if root in g {
        RootProceeds(g, rank, maxDepth, paths, o, root);
        if RootsOk(g, rank, maxDepth, roots) {
          AdvancesTwice(g, maxDepth, map[], [], o.seen, o.edges, o'.seen, o'.edges, true);
          CoversOneMore(g, maxDepth, o.seen, o'.seen, roots);
        }
      }
    }
  }

  // ---------------------------------------------------------------- the code

  class RefWriter {
    const dag: Dag
    const unique: bool
    const maxDepth: int
    var seen: Seen
    var written: seq<Edge>

    constructor (dag: Dag, unique: bool, maxDepth: int)
      ensures this.dag == dag && this.unique == unique && this.maxDepth == maxDepth
      ensures seen == map[] && written == []
    {
      this.dag, this.unique, this.maxDepth := dag, unique, maxDepth;
      seen, written := map[], [];
    }

    ghost function Now(): Outcome
      reads this
    {
      Outcome(seen, written, true)
    }

    ghost predicate Valid(paths: iset<(Cid, nat)>)
      reads this
    {
      RealEdges(dag, written) && (unique ==> Consistent(paths, maxDepth, seen, written))
    }

    method Visit(c: Cid, depth: nat) returns (goDeeper: bool, shouldWrite: bool)
      requires depth >= 1
      modifies this`seen
      ensures !Within(maxDepth, depth) ==> !goDeeper && !shouldWrite && seen == old(seen)
      ensures Within(maxDepth, depth) && !unique ==>
                shouldWrite && goDeeper == Within(maxDepth, depth + 1) && seen == old(seen)
      ensures Within(maxDepth, depth) && unique ==>
                if Covered(old(seen), maxDepth, c, depth) then !goDeeper && !shouldWrite && seen == old(seen)
                else
                  && seen == old(seen)[c := depth]
                  && goDeeper == Within(maxDepth, depth + 1)
                  && shouldWrite == (c !in old(seen))
    {
      var atMaxDepth := maxDepth >= 0 && depth == maxDepth;
      var overMaxDepth := maxDepth >= 0 && depth > maxDepth;
      if overMaxDepth {
        return false, false;
      }
      if !unique {
        return !atMaxDepth, true;
      }
      var ok := c in seen;
      if ok && (maxDepth < 0 || seen[c] <= depth) {
        return false, false;
      }
      seen := seen[c := depth];
      return !atMaxDepth, !ok;
    }

    /**
     The upper half of the loop body in writeRefsRecursive: visit the link, fetch its node if needed, and write it.
     */
    method VisitLink(c: Cid, link: Link, depth: nat) returns (goDeeper: bool, count: nat, ok: bool)
      requires c in dag && link in dag[c]
      modifies this
      ensures count == |written| - |old(written)|
      ensures goDeeper ==> ok && link.cid in dag
      ensures unique ==>
                var edge := Edge(c, link.cid, link.name);
                && Outcome(seen, written, ok) == Visited(dag, maxDepth, old(Now()), edge, depth + 1)
                && goDeeper == (ok && GoesDeeper(maxDepth, old(Now()), edge, depth + 1))
      ensures !unique ==>
                && seen == old(seen) && ok == (Within(maxDepth, depth + 1) ==> link.cid in dag)
                && goDeeper == (ok && Within(maxDepth, depth + 2))
                && written == old(written) +
                              if ok && Within(maxDepth, depth + 1) then [Edge(c, link.cid, link.name)] else []
    {
      var shouldWrite;
      goDeeper, shouldWrite := Visit(link.cid, depth + 1);
      count, ok := 0, true;
      if !shouldWrite && !goDeeper {
        return;
      }
      if link.cid !in dag {
        return false, 0, false;
      }
      if shouldWrite {
        written := written + [Edge(c, link.cid, link.name)];
        count := count + 1;
      }
    }

    /** One turn of the loop in writeRefsRecursive: the link at index `i` of `c`, found at `depth + 1`. */
    method WriteLink(c: Cid, i: nat, depth: nat, ghost rank: Cid -> nat) returns (count: nat, ok: bool)
      requires Ranked(dag, rank) && c in dag && i < |dag[c]|
      modifies this
      ensures count == |written| - |old(written)|
      ensures unique ==> Outcome(seen, written, ok) == WalkedLink(dag, rank, maxDepth, old(Now()), c, depth, i)
      ensures !unique ==> seen == old(seen)
      ensures !unique ==>
                Trace(written, ok) == Then(Trace(old(written), true), UnprunedLink(dag, rank, maxDepth, c, depth, i))
      decreases rank(c), 0
    {
      var link := dag[c][i];
      ghost var edge := Edge(c, link.cid, link.name);
      var goDeeper;
      goDeeper, count, ok := VisitLink(c, link, depth);
      if goDeeper {
        var n;
        n, ok := WriteRefsRecursive(link.cid, depth + 1, rank);
        count := count + n;
        if !unique {
          ThenAssociates(Trace(old(written), true), Trace([edge], true),
                         Unpruned(dag, rank, maxDepth, link.cid, depth + 1, 0));
        }
      }
    }

    method WriteRefsRecursive(c: Cid, depth: nat, ghost rank: Cid -> nat) returns (count: nat, ok: bool)
      requires Ranked(dag, rank) && c in dag
      modifies this
      ensures count == |written| - |old(written)|
      ensures unique ==> Outcome(seen, written, ok) == Walked(dag, rank, maxDepth, old(Now()), c, depth, 0)
      ensures !unique ==> seen == old(seen)
      ensures !unique ==>
                Trace(written, ok) == Then(Trace(old(written), true), Unpruned(dag, rank, maxDepth, c, depth, 0))
      decreases rank(c), 1
    {
      count := 0;
      ghost var all := Walked(dag, rank, maxDepth, Now(), c, depth, 0);
      ghost var whole := Then(Trace(old(written), true), Unpruned(dag, rank, maxDepth, c, depth, 0));
      for i := 0 to |dag[c]|
        invariant count == |written| - |old(written)|
        invariant unique ==> all == Walked(dag, rank, maxDepth, Now(), c, depth, i)
        invariant !unique ==> seen == old(seen)
        invariant !unique ==> whole == Then(Trace(written, true), Unpruned(dag, rank, maxDepth, c, depth, i))
      {
        ghost var written' := written;
        var n, linkOk := WriteLink(c, i, depth, rank);
        count := count + n;
        if !unique {
          ThenAssociates(Trace(written', true), UnprunedLink(dag, rank, maxDepth, c, depth, i),
                         Unpruned(dag, rank, maxDepth, c, depth, i + 1));
        }
        if !linkOk {
          return count, false;
        }
      }
      ok := true;
    }

    /** Walks one root. Returns the number of references written, and false when some node could not be fetched. */
    method WriteRefs(c: Cid, ghost rank: Cid -> nat, ghost paths: iset<(Cid, nat)>) returns (count: nat, ok: bool)
      requires Ranked(dag, rank) && FollowsLinks(dag, paths) && (c, 0) in paths && Valid(paths)
      modifies this
      ensures Valid(paths)
      ensures old(written) <= written && count == |written| - |old(written)|
      ensures !ok ==> c !in dag || !ScopeFetchable(dag, paths, maxDepth)
      ensures ok ==> c in dag
      ensures c !in dag ==> !ok && written == old(written) && seen == old(seen)
      ensures unique ==> Advances(dag, maxDepth, old(seen), old(written), seen, written, ok)
      ensures unique && ok && Within(maxDepth, 1) ==> LinksCovered(dag, seen, maxDepth, c, 0)
      ensures unique && ok ==> forall x :: Writes(written, x) <==>
                Writes(old(written), x) || (x !in old(seen) && ReachedPast(dag, maxDepth, old(seen), c, x))
      ensures unique && c in dag ==> Outcome(seen, written, ok) == Walked(dag, rank, maxDepth, old(Now()), c, 0, 0)
      ensures !unique && c in dag ==>
                Trace(written, ok) == Then(Trace(old(written), true), Unpruned(dag, rank, maxDepth, c, 0, 0))
      ensures !unique ==> seen == old(seen)
    {
      if c !in dag {
        return 0, false;
      }
      ghost var before := Now();
      count, ok := WriteRefsRecursive(c, 0, rank);
      if unique {
        RootProceeds(dag, rank, maxDepth, paths, before, c);
        WalkedIsReal(dag, rank, maxDepth, before, c, 0, 0);
      } else {
        UnprunedInScope(dag, rank, maxDepth, c, 0, 0, paths);
        UnprunedIsReal(dag, rank, maxDepth, c, 0, 0);
      }
    }
  }

  function Sum(ns: seq<nat>): nat {
    if ns == [] then 0 else Sum(ns[..|ns| - 1]) + ns[|ns| - 1]
  }

  lemma SumOneMore(ns: seq<nat>, n: nat)
    ensures Sum(ns + [n]) == Sum(ns) + n
  {
    assert (ns + [n])[..|ns|] == ns;
  }

  /** What the next root adds to each of the traversals. */
  lemma RootsOneMore(g: Dag, rank: Cid -> nat, maxDepth: int, roots: seq<Cid>, i: nat)
    requires Ranked(g, rank) && i < |roots|
    ensures WalkedRoots(g, rank, maxDepth, roots[..i + 1]) ==
            WalkedRoot(g, rank, maxDepth, WalkedRoots(g, rank, maxDepth, roots[..i]), roots[i])
    ensures RootsOk(g, rank, maxDepth, roots[..i + 1]) ==
            (&& RootsOk(g, rank, maxDepth, roots[..i])
             && RootOk(g, rank, maxDepth, WalkedRoots(g, rank, maxDepth, roots[..i]), roots[i]))
    ensures var front, all := UnprunedRoots(g, rank, maxDepth, roots[..i]), UnprunedRoots(g, rank, maxDepth,
                                            roots[..i + 1]);
            if roots[i] !in g then all == Trace(front.edges, false)
            else
              var t := Unpruned(g, rank, maxDepth, roots[i], 0, 0);
              all == Trace(front.edges + t.edges, front.ok && t.ok)
  {
    assert roots[..i + 1][..i] == roots[..i];
  }

  /** One turn of the loop in the `refs` command. */
  method NextRoot(rw: RefWriter, c: Cid, ghost rank: Cid -> nat, ghost paths: iset<(Cid, nat)>)
    returns (count: nat, ok: bool)
    requires Ranked(rw.dag, rank) && FollowsLinks(rw.dag, paths) && (c, 0) in paths && rw.Valid(paths)
    modifies rw
    ensures rw.Valid(paths) && count == |rw.written| - |old(rw.written)|
    ensures rw.unique ==> rw.Now() == WalkedRoot(rw.dag, rank, rw.maxDepth, old(rw.Now()), c)
    ensures rw.unique ==> ok == RootOk(rw.dag, rank, rw.maxDepth, old(rw.Now()), c)
    ensures !rw.unique && c in rw.dag ==>
              Trace(rw.written, ok) == Then(Trace(old(rw.written), true), Unpruned(rw.dag, rank, rw.maxDepth, c, 0, 0))
    ensures !rw.unique && c !in rw.dag ==> rw.written == old(rw.written) && !ok
  {
    count, ok := rw.WriteRefs(c, rank, paths);
  }

  /** The loop of the `refs` command: a root that fails does not stop the next one. */
  method WalkRoots(rw: RefWriter, roots: seq<Cid>, ghost rank: Cid -> nat, ghost paths: iset<(Cid, nat)>)
    returns (counts: seq<nat>, ok: bool)
    requires Ranked(rw.dag, rank) && FollowsLinks(rw.dag, paths) && forall r :: r in roots ==> (r, 0) in paths
    requires rw.seen == map[] && rw.written == []
    modifies rw
    ensures |counts| == |roots| && Sum(counts) == |rw.written| && rw.Valid(paths)
    ensures rw.unique ==> rw.Now() == WalkedRoots(rw.dag, rank, rw.maxDepth, roots)
    ensures rw.unique ==> ok == RootsOk(rw.dag, rank, rw.maxDepth, roots)
    ensures !rw.unique ==> Trace(rw.written, ok) == UnprunedRoots(rw.dag, rank, rw.maxDepth, roots)
  {
    counts, ok := [], true;
    for i := 0 to |roots|
      invariant |counts| == i && Sum(counts) == |rw.written| && rw.Valid(paths)
      invariant rw.unique ==> rw.Now() == WalkedRoots(rw.dag, rank, rw.maxDepth, roots[..i])
      invariant rw.unique ==> ok == RootsOk(rw.dag, rank, rw.maxDepth, roots[..i])
      invariant !rw.unique ==> Trace(rw.written, ok) == UnprunedRoots(rw.dag, rank, rw.maxDepth, roots[..i])
    {
      RootsOneMore(rw.dag, rank, rw.maxDepth, roots, i);
      var n, rootOk := NextRoot(rw, roots[i], rank, paths);
      SumOneMore(counts, n);
      counts, ok := counts + [n], ok && rootOk;
    }
    assert roots[..|roots|] == roots;
  }

  /** The body of the `refs` command: one RefWriter for all roots; a root that fails does not stop the next one. */
  method Refs(dag: Dag, roots: seq<Cid>, unique: bool, maxDepth: int, ghost rank: Cid -> nat)
    returns (edges: seq<Edge>, counts: seq<nat>, ok: bool, seen: Seen)
    requires Ranked(dag, rank)
    ensures |counts| == |roots| && Sum(counts) == |edges| && RealEdges(dag, edges)
    ensures var paths := Paths(dag, Elems(roots));
            && (ok <==> ScopeFetchable(dag, paths, maxDepth) && Elems(roots) <= dag.Keys)
            && (ok ==> forall c :: Writes(edges, c) <==> InScope(paths, maxDepth, c))
            && (unique ==> DistinctTargets(edges) && forall c :: Writes(edges, c) ==> InScope(paths, maxDepth, c))
            && (unique && ok ==> forall c :: c in seen <==> Writes(edges, c))
            && (unique && ok && maxDepth >= 0 ==> forall c :: c in seen ==> Shortest(paths, c, seen[c]))
    ensures unique ==> Outcome(seen, edges, true) == WalkedRoots(dag, rank, maxDepth, roots)
    ensures !unique ==> Trace(edges, ok) == UnprunedRoots(dag, rank, maxDepth, roots)
    ensures unique && ok ==> forall c :: Writes(edges, c) <==>
              Writes(UnprunedRoots(dag, rank, maxDepth, roots).edges, c)
  {
    ghost var paths := Paths(dag, Elems(roots));
    PathsFollowLinks(dag, Elems(roots));
    var rw := new RefWriter(dag, unique, maxDepth);
    counts, ok := WalkRoots(rw, roots, rank, paths);
    edges, seen := rw.written, rw.seen;
    UnprunedExact(dag, rank, maxDepth, roots);
    if unique {
      RootsProceed(dag, rank, maxDepth, paths, roots);
      forall c | Writes(edges, c)
        ensures InScope(paths, maxDepth, c)
      {
        WrittenInScope(dag, paths, maxDepth, seen, edges, c);
      }
      if ok {
        assert AllWritten(map[], []);
        PrunedExact(dag, roots, maxDepth, seen, edges);
      }
    }
  }
}
