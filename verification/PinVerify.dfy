/** Verification of recursive pins (core/coreapi/pin.go, Verify): a memoised recursion over the pinned DAGs. */
module PinVerify {
  import opened Common
  import opened Ipld

  /** The status of a pin; a bad node is one whose links could not be fetched. */
  datatype PinStatus = PinStatus(cid: Cid, ok: bool, badNodes: seq<Cid>)

  // ---------------------------------------------------------------- plain recursion

  /** Depth-first check with nothing remembered. */
  ghost function Status(g: Dag, rank: Cid -> nat, c: Cid): (st: PinStatus)
    requires Ranked(g, rank)
    decreases rank(c), 1, 0
  {
    if c !in g then PinStatus(c, false, [c]) else StatusUpTo(g, rank, c, |g[c]|)
  }

  /** The status after the first `i` links. */
  ghost function StatusUpTo(g: Dag, rank: Cid -> nat, c: Cid, i: nat): (st: PinStatus)
    requires Ranked(g, rank) && c in g && i <= |g[c]|
    decreases rank(c), 0, i
  {
    if i == 0 then PinStatus(c, true, [])
    else
      var st, res := StatusUpTo(g, rank, c, i - 1), Status(g, rank, g[c][i - 1].cid);
      if res.ok then st else PinStatus(c, false, st.badNodes + res.badNodes)
  }

  // ---------------------------------------------------------------- the code

  ghost predicate Memo(g: Dag, rank: Cid -> nat, visited: map<Cid, PinStatus>)
    requires Ranked(g, rank)
  {
    forall c :: c in visited ==> visited[c] == Status(g, rank, c)
  }

  class Verifier {
    const dag: Dag
    var visited: map<Cid, PinStatus>

    constructor (dag: Dag)
      ensures this.dag == dag && visited == map[]
    {
      this.dag, visited := dag, map[];
    }

    method CheckPin(root: Cid, ghost rank: Cid -> nat) returns (status: PinStatus)
      requires Ranked(dag, rank) && Memo(dag, rank, visited)
      modifies this
      ensures status == Status(dag, rank, root)
      ensures status.cid == root && ReportsPaths(dag, root, status.badNodes)
      ensures Memo(dag, rank, visited)
      decreases rank(root)
    {
      BadNodesFollowPaths(dag, rank, root);
      if root in visited {
        return visited[root];
      }
      if root !in dag {
        status := PinStatus(root, false, [root]);
        visited := visited[root := status];
        return;
      }
      var links := dag[root];
      status := PinStatus(root, true, []);
      for i := 0 to |links|
        invariant status == StatusUpTo(dag, rank, root, i)
        invariant Memo(dag, rank, visited)
      {
        var res := CheckPin(links[i].cid, rank);
        if !res.ok {
          status := PinStatus(root, false, status.badNodes + res.badNodes);
        }
      }
      visited := visited[root := status];
    }
  }

  /**
   Verify: one status per recursive pin, under the pin's own CID. Memory makes no difference, and the bad nodes are the
   ends of the link paths to what cannot be fetched, one per path, in the order of the paths.
   */
  method Verify(dag: Dag, recPins: seq<Cid>, ghost rank: Cid -> nat) returns (out: seq<PinStatus>)
    requires Ranked(dag, rank)
    ensures |out| == |recPins| && forall i :: 0 <= i < |out| ==> out[i] == Status(dag, rank, recPins[i])
    ensures forall i :: 0 <= i < |out| ==> out[i].cid == recPins[i] && ReportsPaths(dag, recPins[i], out[i].badNodes)
    ensures forall i :: 0 <= i < |out| ==> (out[i].ok <==> out[i].badNodes == [])
  {
    var verifier := new Verifier(dag);
    out := [];
    for i := 0 to |recPins|
      invariant verifier.dag == dag && Memo(dag, rank, verifier.visited)
      invariant |out| == i && forall j :: 0 <= j < i ==> out[j] == Status(dag, rank, recPins[j])
    {
      var status := verifier.CheckPin(recPins[i], rank);
      out := out + [status];
    }
    forall i | 0 <= i < |out|
      ensures out[i].cid == recPins[i] && ReportsPaths(dag, recPins[i], out[i].badNodes)
      ensures out[i].ok <==> out[i].badNodes == []
    {
      BadNodesFollowPaths(dag, rank, recPins[i]);
      BadNodesCountPaths(dag, rank, recPins[i], recPins[i]);
    }
  }

  // ---------------------------------------------------------------- bad nodes and paths

  /** The link indices of `p` can be followed from `c`. */
  ghost predicate IsPath(g: Dag, c: Cid, p: Path)
    decreases |p|
  {
    p == [] || (c in g && p[0] < |g[c]| && IsPath(g, g[c][p[0]].cid, p[1..]))
  }

  ghost function End(g: Dag, c: Cid, p: Path): Cid
    requires IsPath(g, c, p)
    decreases |p|
  {
    if p == [] then c else End(g, g[c][p[0]].cid, p[1..])
  }

  ghost predicate IsBadPath(g: Dag, c: Cid, p: Path) { IsPath(g, c, p) && End(g, c, p) !in g }

  /** `bad` lists the ends of `paths`. */
  ghost predicate Ends(g: Dag, c: Cid, paths: seq<Path>, bad: seq<Cid>) { bad in EndLists(g, c, paths) }

  ghost function EndLists(g: Dag, c: Cid, paths: seq<Path>): iset<seq<Cid>> { iset bad | AreEnds(g, c, paths, bad) }

  ghost predicate AreEnds(g: Dag, c: Cid, paths: seq<Path>, bad: seq<Cid>) {
    |bad| == |paths| && forall k :: 0 <= k < |paths| ==> IsPath(g, c, paths[k]) && bad[k] == End(g, c, paths[k])
  }

  /** `bad` lists the ends of all paths from `c` to nodes that cannot be fetched, one per path, in order. */
  ghost predicate ReportsPaths(g: Dag, c: Cid, bad: seq<Cid>) {
    exists paths :: InOrder(paths) && (forall p :: p in paths <==> IsBadPath(g, c, p)) && Ends(g, c, paths, bad)
  }

  ghost function BadPaths(g: Dag, rank: Cid -> nat, c: Cid): seq<Path>
    requires Ranked(g, rank)
    decreases rank(c), 1, 0
  {
    if c !in g then [[]] else BadPathsUpTo(g, rank, c, |g[c]|)
  }

  /** The bad paths that start with one of the first `i` links. */
  ghost function BadPathsUpTo(g: Dag, rank: Cid -> nat, c: Cid, i: nat): seq<Path>
    requires Ranked(g, rank) && c in g && i <= |g[c]|
    decreases rank(c), 0, i
  {
    if i == 0 then []
    else BadPathsUpTo(g, rank, c, i - 1) + Below(i - 1, BadPaths(g, rank, g[c][i - 1].cid))
  }

  lemma {:induction false} BadPathsExact(g: Dag, rank: Cid -> nat, c: Cid, p: Path)
    requires Ranked(g, rank)
    ensures p in BadPaths(g, rank, c) <==> IsBadPath(g, c, p)
    decreases rank(c), 1, 0
  {
    if c in g {
      BadPathsUpToExact(g, rank, c, |g[c]|, p);
    }
  }

  lemma {:induction false} BadPathsUpToExact(g: Dag, rank: Cid -> nat, c: Cid, i: nat, p: Path)
    requires Ranked(g, rank) && c in g && i <= |g[c]|
    ensures p in BadPathsUpTo(g, rank, c, i) <==> IsBadPath(g, c, p) && p != [] && p[0] < i
    decreases rank(c), 0, i
  {
    if i > 0 {
      var d := g[c][i - 1].cid;
      BadPathsUpToExact(g, rank, c, i - 1, p);
      if p != [] {
        BadPathsExact(g, rank, d, p[1..]);
      }
      InBelow(i - 1, BadPaths(g, rank, d), p);
    }
  }

  lemma {:induction false} BadPathsInOrder(g: Dag, rank: Cid -> nat, c: Cid)
    requires Ranked(g, rank)
    ensures InOrder(BadPaths(g, rank, c))
    decreases rank(c), 1, 0
  {
    if c in g {
      BadPathsUpToInOrder(g, rank, c, |g[c]|);
    }
  }

  lemma {:induction false} BadPathsUpToInOrder(g: Dag, rank: Cid -> nat, c: Cid, i: nat)
    requires Ranked(g, rank) && c in g && i <= |g[c]|
    ensures InOrder(BadPathsUpTo(g, rank, c, i))
    decreases rank(c), 0, i
  {
    if i > 0 {
      var front, last := BadPathsUpTo(g, rank, c, i - 1), BadPaths(g, rank, g[c][i - 1].cid);
      BadPathsUpToInOrder(g, rank, c, i - 1);
      BadPathsInOrder(g, rank, g[c][i - 1].cid);
      BelowInOrder(i - 1, last);
      forall p | p in front
        ensures p == [] || p[0] < i - 1
      {
        BadPathsUpToExact(g, rank, c, i - 1, p);
      }
      AppendInOrder(front, Below(i - 1, last), i - 1);
    }
  }

  lemma {:induction false} BadNodesAreEnds(g: Dag, rank: Cid -> nat, c: Cid)
    requires Ranked(g, rank)
    ensures Status(g, rank, c).cid == c && Ends(g, c, BadPaths(g, rank, c), Status(g, rank, c).badNodes)
    decreases rank(c), 1, 0
  {
    if c in g {
      BadNodesUpToAreEnds(g, rank, c, |g[c]|);
    }
  }

  lemma {:induction false} BadNodesUpToAreEnds(g: Dag, rank: Cid -> nat, c: Cid, i: nat)
    requires Ranked(g, rank) && c in g && i <= |g[c]|
    ensures StatusUpTo(g, rank, c, i).cid == c
    ensures Ends(g, c, BadPathsUpTo(g, rank, c, i), StatusUpTo(g, rank, c, i).badNodes)
    decreases rank(c), 0, i
  {
    if i > 0 {
      var d := g[c][i - 1].cid;
      BadNodesUpToAreEnds(g, rank, c, i - 1);
      BadNodesAreEnds(g, rank, d);
      StatusJoins(g, rank, c, i);
      EndsBelow(g, c, i - 1, BadPaths(g, rank, d), Status(g, rank, d).badNodes);
      EndsAppend(g, c, BadPathsUpTo(g, rank, c, i - 1), StatusUpTo(g, rank, c, i - 1).badNodes,
                 Below(i - 1, BadPaths(g, rank, d)), Status(g, rank, d).badNodes);
    }
  }

  lemma StatusJoins(g: Dag, rank: Cid -> nat, c: Cid, i: nat)
    requires Ranked(g, rank) && c in g && 0 < i <= |g[c]|
    ensures StatusUpTo(g, rank, c, i).badNodes ==
            StatusUpTo(g, rank, c, i - 1).badNodes + Status(g, rank, g[c][i - 1].cid).badNodes
    ensures StatusUpTo(g, rank, c, i).cid == c || StatusUpTo(g, rank, c, i).cid == StatusUpTo(g, rank, c, i - 1).cid
  {
    BadNodesCountPaths(g, rank, g[c][i - 1].cid, c);
  }

  lemma EndsAppend(g: Dag, c: Cid, ps: seq<Path>, bad: seq<Cid>, qs: seq<Path>, more: seq<Cid>)
    requires Ends(g, c, ps, bad) && Ends(g, c, qs, more)
    ensures Ends(g, c, ps + qs, bad + more)
  {
    assert AreEnds(g, c, ps, bad) && AreEnds(g, c, qs, more);
    assert AreEnds(g, c, ps + qs, bad + more);
  }

  lemma EndsBelow(g: Dag, c: Cid, i: nat, paths: seq<Path>, bad: seq<Cid>)
    requires c in g && i < |g[c]| && Ends(g, g[c][i].cid, paths, bad)
    ensures Ends(g, c, Below(i, paths), bad)
  {
    var qs := Below(i, paths);
    assert AreEnds(g, g[c][i].cid, paths, bad);
    forall k | 0 <= k < |qs|
      ensures IsPath(g, c, qs[k]) && bad[k] == End(g, c, qs[k])
    {
      assert qs[k][1..] == paths[k];
    }
  }

  /** The status of a CID names that CID, and its bad nodes follow the paths. */
  lemma BadNodesFollowPaths(g: Dag, rank: Cid -> nat, c: Cid)
    requires Ranked(g, rank)
    ensures Status(g, rank, c).cid == c && ReportsPaths(g, c, Status(g, rank, c).badNodes)
  {
    var paths := BadPaths(g, rank, c);
    BadPathsInOrder(g, rank, c);
    BadNodesAreEnds(g, rank, c);
    forall p
      ensures p in paths <==> IsBadPath(g, c, p)
    {
      BadPathsExact(g, rank, c, p);
    }
  }

  // ---------------------------------------------------------------- what a status says

  /** The number of link paths from `c` to `x`. */
  ghost function PathCount(g: Dag, rank: Cid -> nat, c: Cid, x: Cid): nat
    requires Ranked(g, rank)
    decreases rank(c), 1, 0
  {
    (if c == x then 1 else 0) + if c in g then PathCountUpTo(g, rank, c, x, |g[c]|) else 0
  }

  ghost function PathCountUpTo(g: Dag, rank: Cid -> nat, c: Cid, x: Cid, i: nat): nat
    requires Ranked(g, rank) && c in g && i <= |g[c]|
    decreases rank(c), 0, i
  {
    if i == 0 then 0 else PathCountUpTo(g, rank, c, x, i - 1) + PathCount(g, rank, g[c][i - 1].cid, x)
  }

  /** A node that cannot be fetched is reported once for every path that leads to it, and nothing else is reported. */
  lemma {:induction false} BadNodesCountPaths(g: Dag, rank: Cid -> nat, c: Cid, x: Cid)
    requires Ranked(g, rank)
    ensures multiset(Status(g, rank, c).badNodes)[x] == if x in g then 0 else PathCount(g, rank, c, x)
    ensures Status(g, rank, c).ok <==> Status(g, rank, c).badNodes == []
    decreases rank(c), 1, 0
  {
    if c in g {
      BadNodesCountPathsUpTo(g, rank, c, x, |g[c]|);
    }
  }

  lemma {:induction false} BadNodesCountPathsUpTo(g: Dag, rank: Cid -> nat, c: Cid, x: Cid, i: nat)
    requires Ranked(g, rank) && c in g && i <= |g[c]|
    ensures multiset(StatusUpTo(g, rank, c, i).badNodes)[x] == if x in g then 0 else PathCountUpTo(g, rank, c, x, i)
    ensures StatusUpTo(g, rank, c, i).ok <==> StatusUpTo(g, rank, c, i).badNodes == []
    decreases rank(c), 0, i
  {
    if i > 0 {
      BadNodesCountPathsUpTo(g, rank, c, x, i - 1);
      BadNodesCountPaths(g, rank, g[c][i - 1].cid, x);
      var st, res := StatusUpTo(g, rank, c, i - 1), Status(g, rank, g[c][i - 1].cid);
      if res.ok {
        assert multiset(res.badNodes)[x] == 0;
      } else {
        assert multiset(st.badNodes + res.badNodes) == multiset(st.badNodes) + multiset(res.badNodes);
      }
    }
  }

  /** Only reachable nodes are reported, and only those that cannot be fetched. */
  lemma {:induction false} BadNodesAreReachable(g: Dag, rank: Cid -> nat, roots: set<Cid>, c: Cid, n: nat)
    requires Ranked(g, rank) && Reaches(g, roots, c, n)
    ensures forall x :: x in Status(g, rank, c).badNodes ==> x !in g && Reachable(g, roots, x)
    decreases rank(c), 1, 0
  {
    assert Reachable(g, roots, c);
    if c in g {
      BadNodesAreReachableUpTo(g, rank, roots, c, n, |g[c]|);
    }
  }

  lemma {:induction false} BadNodesAreReachableUpTo(g: Dag, rank: Cid -> nat, roots: set<Cid>, c: Cid, n: nat, i: nat)
    requires Ranked(g, rank) && Reaches(g, roots, c, n) && c in g && i <= |g[c]|
    ensures forall x :: x in StatusUpTo(g, rank, c, i).badNodes ==> x !in g && Reachable(g, roots, x)
    decreases rank(c), 0, i
  {
    if i > 0 {
      var d := g[c][i - 1].cid;
      assert HasLink(g, c, d);
      assert Reaches(g, roots, d, n + 1);
      BadNodesAreReachableUpTo(g, rank, roots, c, n, i - 1);
      BadNodesAreReachable(g, rank, roots, d, n + 1);
    }
  }

  lemma {:induction false} OkLinksAreOk(g: Dag, rank: Cid -> nat, c: Cid, i: nat, j: nat)
    requires Ranked(g, rank) && c in g && j < i <= |g[c]| && StatusUpTo(g, rank, c, i).ok
    ensures Status(g, rank, g[c][j].cid).ok
    decreases i
  {
    if j < i - 1 {
      OkLinksAreOk(g, rank, c, i - 1, j);
    }
  }

  lemma {:induction false} OkReachesFetchable(g: Dag, rank: Cid -> nat, root: Cid, c: Cid, n: nat)
    requires Ranked(g, rank) && Status(g, rank, root).ok && Reaches(g, {root}, c, n)
    ensures Status(g, rank, c).ok && c in g
    decreases n
  {
    if n > 0 {
      var m :| HasLink(g, m, c) && Reaches(g, {root}, m, n - 1);
      OkReachesFetchable(g, rank, root, m, n - 1);
      var j :| 0 <= j < |g[m]| && g[m][j].cid == c;
      OkLinksAreOk(g, rank, m, |g[m]|, j);
    }
  }

  /** A pin is ok exactly when everything reachable from it can be fetched. */
  lemma OkIff(g: Dag, rank: Cid -> nat, root: Cid)
    requires Ranked(g, rank)
    ensures Status(g, rank, root).ok <==> forall c :: Reachable(g, {root}, c) ==> c in g
  {
    if Status(g, rank, root).ok {
      forall c | Reachable(g, {root}, c)
        ensures c in g
      {
        var n: nat :| Reaches(g, {root}, c, n);
        OkReachesFetchable(g, rank, root, c, n);
      }
    } else {
      BadNodesCountPaths(g, rank, root, root);
      assert Reaches(g, {root}, root, 0);
      BadNodesAreReachable(g, rank, {root}, root, 0);
      var x := Status(g, rank, root).badNodes[0];
      assert x in Status(g, rank, root).badNodes;
    }
  }
}
