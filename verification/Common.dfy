/** Types shared by the models of the different components. */
module Common {

  type byte = x: int | 0 <= x < 256

  datatype Option<+T> = None | Some(value: T)

  datatype Result<+T, +E> = Ok(value: T) | Err(error: E)

  // ---------------------------------------------------------------- positions in a tree

  /** The indices of the children to follow, from the top. */
  type Path = seq<nat>

  /** Lexicographic order, which is preorder on the paths of a tree: a node comes before what is below it. */
  predicate Before(p: Path, q: Path)
    decreases |p|
  {
    q != [] && (p == [] || p[0] < q[0] || (p[0] == q[0] && Before(p[1..], q[1..])))
  }

  predicate InOrder(ps: seq<Path>) { forall a, b :: 0 <= a < b < |ps| ==> Before(ps[a], ps[b]) }

  /** The paths that go on from child `i`. */
  function Below(i: nat, ps: seq<Path>): (qs: seq<Path>)
    ensures |qs| == |ps| && forall k :: 0 <= k < |ps| ==> qs[k] == [i] + ps[k]
  {
    seq(|ps|, k requires 0 <= k < |ps| => [i] + ps[k])
  }

  lemma InBelow(i: nat, ps: seq<Path>, p: Path)
    ensures p in Below(i, ps) <==> p != [] && p[0] == i && p[1..] in ps
  {
    if p != [] && p[0] == i && p[1..] in ps {
      var k :| 0 <= k < |ps| && ps[k] == p[1..];
      assert Below(i, ps)[k] == p;
    }
  }

  lemma BelowInOrder(i: nat, ps: seq<Path>)
    requires InOrder(ps)
    ensures InOrder(Below(i, ps))
  {
    var qs := Below(i, ps);
    forall a, b | 0 <= a < b < |qs|
      ensures Before(qs[a], qs[b])
    {
      assert qs[a][1..] == ps[a] && qs[b][1..] == ps[b];
    }
  }

  /** What is below a path, or below an earlier child, comes before what is below a later child. */
  lemma AppendInOrder(ps: seq<Path>, qs: seq<Path>, i: nat)
    requires InOrder(ps) && InOrder(qs)
    requires forall p :: p in ps ==> p == [] || p[0] < i
    requires forall q :: q in qs ==> q != [] && i <= q[0]
    ensures InOrder(ps + qs)
  {
    var all := ps + qs;
    forall a, b | 0 <= a < b < |all|
      ensures Before(all[a], all[b])
    {
      if a < |ps| <= b {
        assert all[a] in ps && all[b] in qs;
      }
    }
  }

  /** Child `i`, what is below it, and what comes after. */
  lemma PreorderInOrder(i: nat, below: seq<Path>, later: seq<Path>)
    requires InOrder(below) && forall p :: p in below ==> p != []
    requires InOrder(later) && forall p :: p in later ==> p != [] && i + 1 <= p[0]
    ensures InOrder(Below(i, [[]] + below) + later)
  {
    AppendInOrder([[]], below, 0);
    BelowInOrder(i, [[]] + below);
    AppendInOrder(Below(i, [[]] + below), later, i + 1);
  }
}
