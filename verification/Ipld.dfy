/** Content identifiers and the link graph that every traversal below walks. */
module Ipld {

  /** A CID: the version, the codec that says how to decode the block, and the multihash that names it. */
  datatype Cid = Cid(version: nat, codec: nat, hash: nat)

  datatype Link = Link(name: string, cid: Cid)

  /** The nodes a node getter can produce, with the links each one holds. A CID outside the map cannot be fetched. */
  type Dag = map<Cid, seq<Link>>

  function Cids(links: seq<Link>): set<Cid> { set i | 0 <= i < |links| :: links[i].cid }

  function Elems(cids: seq<Cid>): set<Cid> { set c | c in cids }

  predicate HasLink(g: Dag, src: Cid, dst: Cid) {
    src in g && exists i :: 0 <= i < |g[src]| && g[src][i].cid == dst
  }

  /** A node is named by a hash over its links, so no link leads back up: `rank` falls along every link. */
  ghost predicate Ranked(g: Dag, rank: Cid -> nat) { rank in Rankings(g) }

  ghost function Rankings(g: Dag): iset<Cid -> nat> { iset rank | FallsAlongLinks(g, rank) }

  ghost predicate FallsAlongLinks(g: Dag, rank: Cid -> nat) {
    forall src, i :: src in g && 0 <= i < |g[src]| ==> rank(g[src][i].cid) < rank(src)
  }

  /** `c` is at the end of a path of exactly `n` links that starts at a root. */
  ghost predicate Reaches(g: Dag, roots: set<Cid>, c: Cid, n: nat)
    decreases n
  {
    if n == 0 then c in roots else exists m :: HasLink(g, m, c) && Reaches(g, roots, m, n - 1)
  }

  ghost predicate Reachable(g: Dag, roots: set<Cid>, c: Cid) { exists n: nat :: Reaches(g, roots, c, n) }
}
