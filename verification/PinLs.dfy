/** Listing of pins (core/coreapi/pin.go, pinLsAll): each CID once, under its most direct kind of pin. */
module PinLs {
  import opened Ipld

  datatype Kind = Recursive | Direct | Indirect

  datatype ListType = All | Only(kind: Kind)

  /** One listed pin. */
  datatype Pin = Pin(kind: Kind, cid: Cid)

  // ---------------------------------------------------------------- what a listing should hold

  ghost predicate Descends(g: Dag, roots: set<Cid>, c: Cid) { exists n: nat :: n > 0 && Reaches(g, roots, c, n) }

  ghost predicate IsPinned(g: Dag, recursive: seq<Cid>, direct: seq<Cid>, c: Cid) {
    c in recursive || c in direct || Descends(g, Elems(recursive), c)
  }

  /** The kind under which a pinned CID is listed. */
  ghost function KindOf(recursive: seq<Cid>, direct: seq<Cid>, c: Cid): Kind {
    if c in recursive then Recursive else if c in direct then Direct else Indirect
  }

  /** What a listing of type `t` holds. */
  ghost predicate Listed(g: Dag, recursive: seq<Cid>, direct: seq<Cid>, t: ListType, p: Pin) {
    match t
    case All => IsPinned(g, recursive, direct, p.cid) && p.kind == KindOf(recursive, direct, p.cid)
    case Only(Recursive) => p.kind == Recursive && p.cid in recursive
    case Only(Direct) => p.kind == Direct && p.cid in direct
    case Only(Indirect) =>
      p.kind == Indirect == KindOf(recursive, direct, p.cid) && Descends(g, Elems(recursive), p.cid)
  }

  /** `out` is an error-free listing of type `t`. */
  ghost predicate Lists(g: Dag, recursive: seq<Cid>, direct: seq<Cid>, t: ListType, out: seq<Pin>) {
    forall p :: p in out <==> Listed(g, recursive, direct, t, p)
  }

  /** The kinds under which a CID is listed, by the lists of the pinner and the paths of links alone. */
  lemma ListedByKind(g: Dag, recursive: seq<Cid>, direct: seq<Cid>, t: ListType, out: seq<Pin>, c: Cid)
    requires Lists(g, recursive, direct, t, out)
    ensures Pin(Recursive, c) in out <==> (t == All || t == Only(Recursive)) && c in recursive
    ensures Pin(Direct, c) in out <==>
            (t == All && c in direct && c !in recursive) || (t == Only(Direct) && c in direct)
    ensures Pin(Indirect, c) in out <==>
            && (t == All || t == Only(Indirect)) && c !in recursive && c !in direct
            && Descends(g, Elems(recursive), c)
  {}

  /** Recursive and indirect pins are listed by themselves as they are among all. */
  lemma ListedAlike(g: Dag, recursive: seq<Cid>, direct: seq<Cid>, kind: Kind, alone: seq<Pin>, all: seq<Pin>)
    requires kind != Direct
    requires Lists(g, recursive, direct, Only(kind), alone) && Lists(g, recursive, direct, All, all)
    ensures forall p :: p in alone <==> p in all && p.kind == kind
  {
    forall p
      ensures p in alone <==> p in all && p.kind == kind
    {
      assert p == Pin(p.kind, p.cid);
      ListedByKind(g, recursive, direct, Only(kind), alone, p.cid);
      ListedByKind(g, recursive, direct, All, all, p.cid);
    }
  }

  /** Direct pins are listed by themselves as they are among all, exactly when no CID is in both lists of the pinner. */
  lemma DirectAlikeIff(g: Dag, recursive: seq<Cid>, direct: seq<Cid>)
    ensures Elems(recursive) !! Elems(direct) <==>
            forall c :: Listed(g, recursive, direct, Only(Direct), Pin(Direct, c)) <==>
                        Listed(g, recursive, direct, All, Pin(Direct, c))
  {
    if Elems(recursive) !! Elems(direct) {
      assert forall c :: c in direct ==> c in Elems(direct) && c !in Elems(recursive);
    } else {
      var c :| c in Elems(recursive) && c in Elems(direct);
      assert Listed(g, recursive, direct, Only(Direct), Pin(Direct, c)) && !Listed(g, recursive, direct, All,
                    Pin(Direct, c));
    }
  }

  const PINNED_TWICE := Cid(1, 0x55, 1)

  /** Lists with a CID in common, where the two listings disagree. */
  lemma DirectCanDiffer()
    ensures Listed(map[], [PINNED_TWICE], [PINNED_TWICE], Only(Direct), Pin(Direct, PINNED_TWICE))
    ensures !Listed(map[], [PINNED_TWICE], [PINNED_TWICE], All, Pin(Direct, PINNED_TWICE))
  {}

  // ---------------------------------------------------------------- the walk

  ghost function Targets(g: Dag): set<Cid> { set k, i | k in g && 0 <= i < |g[k]| :: g[k][i].cid }

  /** Everything in `found` comes below a root. */
  ghost predicate Below(below: iset<Cid>, found: set<Cid>) { forall c :: c in found ==> c in below }

  /** `below` is closed under links and holds the links of `roots`. */
  ghost predicate ClosedBelow(g: Dag, roots: set<Cid>, below: iset<Cid>) {
    forall m, c :: HasLink(g, m, c) && (m in roots || m in below) ==> c in below
  }

  ghost predicate Fetchable(g: Dag, roots: set<Cid>, below: iset<Cid>) {
    forall c :: c in roots || c in below ==> c in g
  }

  /** `c` could be fetched and its links are all in `found`. */
  ghost predicate Followed(g: Dag, found: set<Cid>, c: Cid) { c in g && Cids(g[c]) <= found }

  ghost predicate AllFollowed(g: Dag, found: set<Cid>) { forall c :: c in found ==> Followed(g, found, c) }

  /** In the middle of a walk: `todo` are still to be visited, `inflight` visited but not yet fetched. */
  ghost predicate Walking(g: Dag, below: iset<Cid>, found: set<Cid>, todo: set<Cid>, inflight: set<Cid>, root: Cid) {
    && Below(below, found) && Below(below, todo)
    && (forall c :: c in inflight ==> c == root || c in found)
    && (forall c :: (c in found || c == root) && c !in inflight ==> Followed(g, found + todo, c))
  }

  /**
   merkledag.Walk with SkipRoot and Concurrent: the root is fetched but not visited; below it, nodes are visited and
   fetched in any order. A fetch that fails, or cancellation, ends the walk.
   */
  method Walk(g: Dag, root: Cid, before: set<Cid>, ghost roots: set<Cid>, ghost below: iset<Cid>) 
    returns (found: set<Cid>, ok: bool, ghost cancelled: bool)
    requires ClosedBelow(g, roots, below) && root in roots
    requires Below(below, before) && AllFollowed(g, before)
    ensures before <= found && Below(below, found)
    ensures ok ==> AllFollowed(g, found) && Followed(g, found, root)
    ensures !ok ==> cancelled || !Fetchable(g, roots, below)
  {
    found, cancelled := before, false;
    var todo: set<Cid>, inflight := {}, {root};
    ghost var universe := before + Targets(g);
    while todo != {} || inflight != {}
      invariant before <= found <= universe && todo <= universe
      invariant Walking(g, below, found, todo, inflight, root) && !cancelled
      decreases universe - found, inflight, todo
    {
      var done: bool := *;
      if done {
        return found, false, true;
      }
      var visit: bool := *;
      if inflight == {} || (visit && todo != {}) {
        var c :| c in todo;
        todo := todo - {c};
        if c !in found {
          found := found + {c};
          inflight := inflight + {c};
        }
      } else {
        var c :| c in inflight;
        if c !in g {
          return found, false, false;
        }
        inflight := inflight - {c};
        FetchStays(g, roots, below, c);
        todo := todo + Cids(g[c]);
      }
    }
    ok := true;
    assert found + todo == found;
  }

  lemma FetchStays(g: Dag, roots: set<Cid>, below: iset<Cid>, c: Cid)
    requires ClosedBelow(g, roots, below) && c in g && (c in roots || c in below)
    ensures Below(below, Cids(g[c])) && Cids(g[c]) <= Targets(g)
  {
    forall d | d in Cids(g[c])
      ensures d in below
    {
      assert HasLink(g, c, d);
    }
  }

  // ---------------------------------------------------------------- descendants of the recursive pins

  ghost function Descendants(g: Dag, roots: set<Cid>): iset<Cid> { iset c: Cid | Descends(g, roots, c) }

  lemma DescendantsClosed(g: Dag, roots: set<Cid>)
    ensures ClosedBelow(g, roots, Descendants(g, roots))
  {
    forall m, c | HasLink(g, m, c) && (m in roots || m in Descendants(g, roots))
      ensures c in Descendants(g, roots)
    {
      var n: nat :| Reaches(g, roots, m, n);
      assert Reaches(g, roots, c, n + 1);
    }
  }

  lemma {:induction false} DescendantsFound(g: Dag, roots: set<Cid>, found: set<Cid>, c: Cid, n: nat)
    requires AllFollowed(g, found) && (forall r :: r in roots ==> Followed(g, found, r))
    requires n > 0 && Reaches(g, roots, c, n)
    ensures c in found
    decreases n
  {
    var m :| HasLink(g, m, c) && Reaches(g, roots, m, n - 1);
    if n > 1 {
      DescendantsFound(g, roots, found, m, n - 1);
    }
    var i :| 0 <= i < |g[m]| && g[m][i].cid == c;
    assert c in Cids(g[m]);
  }

  /** The walks from all recursive pins over one shared set: exactly the proper descendants, whatever the order. */
  method WalkPins(g: Dag, recursive: seq<Cid>) returns (found: set<Cid>, ok: bool, ghost cancelled: bool)
    ensures ok ==> forall c :: c in found <==> Descends(g, Elems(recursive), c)
    ensures ok ==> Fetchable(g, Elems(recursive), Descendants(g, Elems(recursive)))
    ensures !ok ==> cancelled || !Fetchable(g, Elems(recursive), Descendants(g, Elems(recursive)))
  {
    ghost var roots := Elems(recursive);
    ghost var below := Descendants(g, roots);
    DescendantsClosed(g, roots);
    found, cancelled := {}, false;
    for i := 0 to |recursive|
      invariant Below(below, found) && AllFollowed(g, found)
      invariant forall j :: 0 <= j < i ==> Followed(g, found, recursive[j])
    {
      ghost var was := found;
      found, ok, cancelled := Walk(g, recursive[i], found, roots, below);
      if !ok {
        return;
      }
      assert forall c :: Followed(g, was, c) ==> Followed(g, found, c);
    }
    ok := true;
    forall c | Descends(g, roots, c)
      ensures c in found
    {
      var n: nat :| n > 0 && Reaches(g, roots, c, n);
      DescendantsFound(g, roots, found, c, n);
    }
  }

  // ---------------------------------------------------------------- the listing

  predicate Distinct(out: seq<Pin>) { forall i, j :: 0 <= i < j < |out| ==> out[i].cid != out[j].cid }

  /** set.Keys(), in some order. */
  method Keys(s: set<Cid>) returns (keys: seq<Cid>)
    ensures Elems(keys) == s
  {
    keys := [];
    var rest := s;
    while rest != {}
      invariant rest <= s && forall c :: c in keys <==> c in s - rest
      decreases rest
    {
      var c :| c in rest;
      rest, keys := rest - {c}, keys + [c];
    }
  }

  class Lister {
    var keys: set<Cid>
    var out: seq<Pin>
    ghost var cancelled: bool

    constructor ()
      ensures keys == {} && out == [] && !cancelled
    {
      keys, out, cancelled := {}, [], false;
    }

    ghost predicate Valid()
      reads this
    {
      Distinct(out) && forall p :: p in out ==> p.cid in keys
    }

    method AddToResultKeys(keyList: seq<Cid>, kind: Kind) returns (ok: bool)
      requires Valid()
      modifies this
      ensures Valid()
      ensures ok ==> keys == old(keys) + Elems(keyList) && cancelled == old(cancelled)
      ensures ok ==> forall p :: p in out <==>
                p in old(out) || (p.kind == kind && p.cid in keyList && p.cid !in old(keys))
      ensures !ok ==> cancelled
    {
      for i := 0 to |keyList|
        invariant Valid() && cancelled == old(cancelled)
        invariant keys == old(keys) + Elems(keyList[..i])
        invariant forall p :: p in out <==>
                    p in old(out) || (p.kind == kind && p.cid in keyList[..i] && p.cid !in old(keys))
      {
        var c := keyList[i];
        assert keyList[..i + 1] == keyList[..i] + [c];
        if c !in keys {
          keys := keys + {c};
          var done: bool := *;
          if done {
            cancelled := true;
            return false;
          }
          out := out + [Pin(kind, c)];
        }
      }
      assert keyList[..|keyList|] == keyList;
      return true;
    }

    method VisitKeys(keyList: seq<Cid>)
      modifies this`keys
      ensures keys == old(keys) + Elems(keyList)
    {
      for i := 0 to |keyList|
        invariant keys == old(keys) + Elems(keyList[..i])
      {
        assert keyList[..i + 1] == keyList[..i] + [keyList[i]];
        keys := keys + {keyList[i]};
      }
      assert keyList[..|keyList|] == keyList;
    }
  }

  predicate NeedsWalk(t: ListType) { t == All || t == Only(Indirect) }

  /**
   pinLsAll. `recursive` and `direct` are what the pinner reports; asking it may fail, which counts as a cancelled run.
   The listing is error free exactly when nothing was cancelled and, for the types that walk the pins, every node below
   them can be fetched.
   */
  method PinLsAll(g: Dag, recursive: seq<Cid>, direct: seq<Cid>, t: ListType)
    returns (out: seq<Pin>, ok: bool, ghost cancelled: bool)
    ensures Distinct(out)
    ensures ok ==> Lists(g, recursive, direct, t, out)
    ensures ok && t == Only(Indirect) ==> forall p :: p in out ==> p.cid !in recursive && p.cid !in direct
    ensures ok && NeedsWalk(t) ==> Fetchable(g, Elems(recursive), Descendants(g, Elems(recursive)))
    ensures !ok && !cancelled ==> NeedsWalk(t) && !Fetchable(g, Elems(recursive), Descendants(g, Elems(recursive)))
  {
    var ls := new Lister();
    out, ok, cancelled := [], false, true;
    if t == Only(Recursive) || t == All {
      var failing: bool := *;
      if failing {
        return;
      }
      var added := ls.AddToResultKeys(recursive, Recursive);
      if !added {
        return ls.out, false, true;
      }
    }
    if t == Only(Direct) || t == All {
      var failing: bool := *;
      if failing {
        return ls.out, false, true;
      }
      var added := ls.AddToResultKeys(direct, Direct);
      if !added {
        return ls.out, false, true;
      }
    }
    if t == All {
      var found, walked;
      found, walked, cancelled := WalkPins(g, recursive);
      if !walked {
        return ls.out, false, cancelled;
      }
      var keys := Keys(found);
      var added := ls.AddToResultKeys(keys, Indirect);
      if !added {
        return ls.out, false, true;
      }
    }
    if t == Only(Indirect) {
      var failing: bool := *;
      if failing {
        return ls.out, false, true;
      }
      ls.VisitKeys(direct);
      ls.VisitKeys(recursive);
      var found, walked;
      found, walked, cancelled := WalkPins(g, recursive);
      if !walked {
        return ls.out, false, cancelled;
      }
      var keys := Keys(found);
      var added := ls.AddToResultKeys(keys, Indirect);
      if !added {
        return ls.out, false, true;
      }
    }
    return ls.out, true, false;
  }
}
