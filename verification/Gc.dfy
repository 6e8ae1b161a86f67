/**
 Mark-and-sweep garbage collection (gc/gc.go).

 Marking walks four groups of pins in a fixed order over one shared set of CIDs; sweeping deletes every stored block
 whose multihash no marked CID has. Fetch failures, failed deletes, cancellation and the order in which the
 concurrent walk reaches nodes are all left open: the code below makes an arbitrary choice at each such point.
 */
module Gc {
  import opened Common
  import opened Ipld

  const RAW: nat := 0x55

  function ToCidV1(c: Cid): Cid {
    if c.version == 0 then Cid(1, c.codec, c.hash) else c
  }

  function ToRaw(c: Cid): Cid { Cid(1, RAW, c.hash) }

  /**
   The blocks at hand, by the version-1 CID that says how to decode them. `dag` holds those that decode, `unreadable`
   those whose fetch fails for a reason other than absence; `insecure` are the multihashes that verifcid rejects.
   */
  datatype Store = Store(dag: Dag, unreadable: set<Cid>, insecure: set<nat>)

  datatype Fetched = Fetched(links: seq<Link>) | NotFound | Unreadable

  /** GetLinks. Both versions of a CID name the same block and decode it the same way. */
  function Fetch(s: Store, c: Cid): Fetched {
    var k := ToCidV1(c);
    if k in s.dag then Fetched(s.dag[k]) else if k in s.unreadable then Unreadable else NotFound
  }

  // ---------------------------------------------------------------- what has to be marked

  /** The CIDs a walk visits next after `k`, as they are entered into the set. */
  function Targets(s: Store, k: Cid): set<Cid> {
    if k in s.dag then set i | 0 <= i < |s.dag[k]| :: ToCidV1(s.dag[k][i].cid) else {}
  }

  function V1(cids: seq<Cid>): set<Cid> { set c | c in cids :: ToCidV1(c) }

  /** A path of `n` readable links leads from a root to `c`, and no node on it before `c` is in `base`. */
  ghost predicate Steps(s: Store, base: iset<Cid>, roots: set<Cid>, c: Cid, n: nat)
    decreases n
  {
    if n == 0 then c in roots else exists m :: m !in base && c in Targets(s, m) && Steps(s, base, roots, m, n - 1)
  }

  ghost predicate Reachable(s: Store, base: iset<Cid>, roots: set<Cid>, c: Cid) {
    exists n: nat :: Steps(s, base, roots, c, n)
  }

  ghost function Reach(s: Store, base: iset<Cid>, roots: set<Cid>): iset<Cid> {
    iset c: Cid | Reachable(s, base, roots, c)
  }

  /** One pass of marking over what is marked already. */
  ghost function Pass(s: Store, base: iset<Cid>, roots: seq<Cid>): iset<Cid> {
    base + Reach(s, base, V1(roots))
  }

  datatype Pins = Pins(recursive: seq<Cid>, bestEffort: seq<Cid>, direct: seq<Cid>, internals: seq<Cid>)

  ghost function MarkedRecursive(s: Store, pins: Pins): iset<Cid> { Pass(s, iset{}, pins.recursive) }

  ghost function MarkedBestEffort(s: Store, pins: Pins): iset<Cid> {
    Pass(s, MarkedRecursive(s, pins), pins.bestEffort)
  }

  /** Direct pins go in without a walk, and ahead of the internal pins. */
  ghost function MarkedDirect(s: Store, pins: Pins): iset<Cid> {
    MarkedBestEffort(s, pins) + iset c | c in V1(pins.direct)
  }

  ghost function Marked(s: Store, pins: Pins): iset<Cid> { Pass(s, MarkedDirect(s, pins), pins.internals) }

  /** A walk gets past `c` without an error. Only a best-effort walk tolerates an absent block. */
  predicate Clean(s: Store, bestEffort: bool, c: Cid) {
    c.hash !in s.insecure && (Fetch(s, c).Fetched? || (bestEffort && Fetch(s, c).NotFound?))
  }

  ghost predicate CleanPass(s: Store, bestEffort: bool, base: iset<Cid>, after: iset<Cid>) {
    forall c :: c in after && c !in base ==> Clean(s, bestEffort, c)
  }

  /** Nothing in the way of marking. */
  ghost predicate Markable(s: Store, pins: Pins) {
    && CleanPass(s, false, iset{}, MarkedRecursive(s, pins))
    && CleanPass(s, true, MarkedRecursive(s, pins), MarkedBestEffort(s, pins))
    && CleanPass(s, false, MarkedDirect(s, pins), Marked(s, pins))
  }

  // ---------------------------------------------------------------- the code: marking

  datatype GcResult =
    | KeyRemoved(key: Cid)
    | CannotFetchLinks(key: Cid)
    | WalkFailed
    | CannotFetchAllLinks
    | CannotDeleteBlock(key: Cid)
    | CannotDeleteSomeBlocks
    | Failed

  ghost function AsISet(s: set<Cid>): iset<Cid> { iset c | c in s }

  /** Every marked CID outside `base` has its readable links marked too. */
  ghost predicate ClosedFrom(s: Store, base: iset<Cid>, marked: set<Cid>) {
    forall c :: c in marked && c !in base ==> Targets(s, c) <= marked
  }

  /** `region` holds the roots and is closed under the steps a walk outside `base` can take. */
  ghost predicate Region(s: Store, base: iset<Cid>, roots: set<Cid>, region: iset<Cid>) {
    (forall c :: c in roots ==> c in region) && Closed(s, base, region)
  }

  ghost predicate Closed(s: Store, base: iset<Cid>, region: iset<Cid>) {
    forall m, c :: m in region && m !in base && c in Targets(s, m) ==> c in region
  }

  ghost function AllTargets(s: Store): set<Cid> {
    set k, c | k in s.dag && c in Targets(s, k) :: c
  }

  /**
   What marking so far knows: everything marked since `base` lies in `region`, and while no error was seen it is done.
   */
  ghost predicate Progress(s: Store, bestEffort: bool, base: iset<Cid>, region: iset<Cid>, marked: set<Cid>,
                           errors: bool) {
    && (forall c :: c in marked ==> c in base || c in region)
    && (!errors ==> ClosedFrom(s, base, marked) && forall c :: c in marked && c !in base ==> Clean(s, bestEffort, c))
  }

  ghost predicate Trouble(s: Store, bestEffort: bool, base: iset<Cid>, region: iset<Cid>) {
    exists c :: c in region && c !in base && !Clean(s, bestEffort, c)
  }

  /** Nothing here speaks of a delete. */
  predicate OnlyMarking(output: seq<GcResult>) {
    forall i :: 0 <= i < |output| ==> !output[i].KeyRemoved? && !output[i].CannotDeleteBlock?
  }

  /**
   As Progress, in the middle of a walk: `todo` are still to be visited, `inflight` are visited but not yet fetched.
   */
  ghost predicate Walking(s: Store, bestEffort: bool, base: iset<Cid>, region: iset<Cid>, marked: set<Cid>,
                          errors: bool,
                          todo: set<Cid>, inflight: set<Cid>) {
    && (forall c :: c in marked ==> c in base || c in region)
    && (forall c :: c in todo ==> ToCidV1(c) in region)
    && (forall c :: c in inflight ==> ToCidV1(c) in marked && ToCidV1(c) !in base)
    && (!errors ==> forall c :: c in marked && c !in base ==>
          || Holds(inflight, c)
          || (Clean(s, bestEffort, c) && forall t :: t in Targets(s, c) ==> t in marked || Holds(todo, t)))
  }

  lemma ReachIsRegion(s: Store, base: iset<Cid>, roots: set<Cid>)
    ensures Region(s, base, roots, Reach(s, base, roots))
  {
    forall c | c in roots
      ensures c in Reach(s, base, roots)
    {
      assert Steps(s, base, roots, c, 0);
    }
    forall m, c | m in Reach(s, base, roots) && m !in base && c in Targets(s, m)
      ensures c in Reach(s, base, roots)
    {
      var n: nat :| Steps(s, base, roots, m, n);
      assert Steps(s, base, roots, c, n + 1);
    }
  }

  lemma {:induction false} StepsAreMarked(s: Store, base: iset<Cid>, roots: set<Cid>, marked: set<Cid>, c: Cid, n: nat)
    requires ClosedFrom(s, base, marked) && roots <= marked && Steps(s, base, roots, c, n)
    ensures c in marked
    decreases n
  {
    if n > 0 {
      var m :| m !in base && c in Targets(s, m) && Steps(s, base, roots, m, n - 1);
      StepsAreMarked(s, base, roots, marked, m, n - 1);
    }
  }

  /** A finished walk has marked one set, the same one whatever order it went in. */
  lemma DoneIsPass(s: Store, bestEffort: bool, base: iset<Cid>, roots: seq<Cid>, marked: set<Cid>)
    requires Progress(s, bestEffort, base, Reach(s, base, V1(roots)), marked, false)
    requires AsISet(marked) >= base && V1(roots) <= marked
    ensures AsISet(marked) == Pass(s, base, roots) && CleanPass(s, bestEffort, base, Pass(s, base, roots))
  {
    forall c | c in Reach(s, base, V1(roots))
      ensures c in marked
    {
      var n: nat :| Steps(s, base, V1(roots), c, n);
      StepsAreMarked(s, base, V1(roots), marked, c, n);
    }
  }

  ghost predicate Holds(cids: set<Cid>, k: Cid) { exists d :: d in cids && ToCidV1(d) == k }

  lemma VisitKeepsWalking(s: Store, bestEffort: bool, base: iset<Cid>, region: iset<Cid>, marked: set<Cid>,
                          errors: bool,
                          todo: set<Cid>, inflight: set<Cid>, c: Cid)
    requires Walking(s, bestEffort, base, region, marked, errors, todo, inflight)
    requires c in todo && AsISet(marked) >= base
    ensures ToCidV1(c) in marked ==> Walking(s, bestEffort, base, region, marked, errors, todo - {c}, inflight)
    ensures ToCidV1(c) !in marked ==>
              Walking(s, bestEffort, base, region, marked + {ToCidV1(c)}, errors, todo - {c}, inflight + {c})
  {
    var k := ToCidV1(c);
    assert k !in marked ==> k !in base;
    forall t | t !in marked && t != k && Holds(todo, t)
      ensures Holds(todo - {c}, t)
    {
      var d :| d in todo && ToCidV1(d) == t;
      assert d in todo - {c};
    }
    forall x | Holds(inflight, x)
      ensures Holds(inflight + {c}, x)
    {
      var d :| d in inflight && ToCidV1(d) == x;
      assert d in inflight + {c};
    }
    assert Holds(inflight + {c}, k) by { assert c in inflight + {c}; }
  }

  lemma FetchKeepsWalking(s: Store, bestEffort: bool, base: iset<Cid>, region: iset<Cid>, marked: set<Cid>,
                          errors: bool,
                          errors': bool, todo: set<Cid>, inflight: set<Cid>, c: Cid, links: seq<Link>)
    requires Walking(s, bestEffort, base, region, marked, errors, todo, inflight)
    requires c in inflight && (errors ==> errors')
    requires Closed(s, base, region)
    requires !errors' ==> Clean(s, bestEffort, c) && (Fetch(s, c).Fetched? ==> links == Fetch(s, c).links)
    requires links == [] || (Fetch(s, c).Fetched? && links == Fetch(s, c).links)
    ensures Walking(s, bestEffort, base, region, marked, errors', todo + Cids(links), inflight - {c})
    ensures forall d :: d in Cids(links) ==> ToCidV1(d) in AllTargets(s)
  {
    var k, todo' := ToCidV1(c), todo + Cids(links);
    LinksAreTargets(s, c, links);
    forall x | x != k && Holds(inflight, x)
      ensures Holds(inflight - {c}, x)
    {
      var d :| d in inflight && ToCidV1(d) == x;
      assert d in inflight - {c};
    }
    forall t | Holds(todo, t)
      ensures Holds(todo', t)
    {
      var d :| d in todo && ToCidV1(d) == t;
      assert d in todo';
    }
    if !errors' {
      assert Fetch(s, k) == Fetch(s, c) && k.hash == c.hash;
      forall t | t in Targets(s, k)
        ensures Holds(todo', t)
      {
        var i :| 0 <= i < |s.dag[k]| && ToCidV1(s.dag[k][i].cid) == t;
        assert links[i].cid in todo';
      }
    }
  }

  lemma CulpritIsTrouble(s: Store, bestEffort: bool, base: iset<Cid>, region: iset<Cid>, marked: set<Cid>, c: Cid)
    requires forall k :: k in marked ==> k in base || k in region
    requires ToCidV1(c) in marked && ToCidV1(c) !in base
    ensures !Clean(s, bestEffort, c) ==> Trouble(s, bestEffort, base, region)
  {
    var k := ToCidV1(c);
    assert Clean(s, bestEffort, k) == Clean(s, bestEffort, c);
    assert k in region;
  }

  lemma LinksAreTargets(s: Store, c: Cid, links: seq<Link>)
    requires links == [] || (Fetch(s, c).Fetched? && links == Fetch(s, c).links)
    ensures forall d :: d in Cids(links) ==> ToCidV1(d) in Targets(s, ToCidV1(c)) && ToCidV1(d) in AllTargets(s)
  {
    forall d | d in Cids(links)
      ensures ToCidV1(d) in Targets(s, ToCidV1(c)) && ToCidV1(d) in AllTargets(s)
    {
      var i :| 0 <= i < |links| && links[i].cid == d;
      var k := ToCidV1(c);
      assert ToCidV1(s.dag[k][i].cid) in Targets(s, k);
    }
  }

  class Marker {
    const store: Store
    var gcs: set<Cid>
    var errors: bool
    var output: seq<GcResult>
    /** The run was cancelled, or a call failed that the store does not account for. */
    ghost var disturbed: bool

    constructor (store: Store)
      ensures this.store == store && gcs == {} && !errors && output == [] && !disturbed
    {
      this.store := store;
      gcs, errors, output, disturbed := {}, false, [], false;
    }

    /** A send on the output channel that gives way to cancellation. */
    method Send(r: GcResult) returns (cancelled: bool)
      requires OnlyMarking(output) && !r.KeyRemoved? && !r.CannotDeleteBlock?
      modifies this`output, this`disturbed
      ensures OnlyMarking(output) && output == if cancelled then old(output) else old(output) + [r]
      ensures disturbed == (old(disturbed) || cancelled)
    {
      cancelled := *;
      if cancelled {
        disturbed := true;
      } else {
        output := output + [r];
      }
    }

    /** Both getLinks closures, behind the check of verifyGetLinks. `ok` is false when the walk must stop. */
    method GetLinks(c: Cid, bestEffort: bool) returns (links: seq<Link>, ok: bool)
      requires OnlyMarking(output)
      modifies this`errors, this`output, this`disturbed
      ensures OnlyMarking(output)
      ensures old(errors) ==> errors
      ensures old(disturbed) ==> disturbed
      ensures ok && !errors ==> Clean(store, bestEffort, c)
      ensures !ok || (errors && !old(errors)) ==> disturbed || !Clean(store, bestEffort, c)
      ensures ok && !errors && Fetch(store, c).Fetched? ==> links == Fetch(store, c).links
      ensures links == [] || (Fetch(store, c).Fetched? && links == Fetch(store, c).links)
      ensures output == old(output) || (output == old(output) + [CannotFetchLinks(c)] && errors)
      ensures ok && (!Clean(store, bestEffort, c) || (errors && !old(errors))) ==> output != old(output)
      ensures !disturbed && output != old(output) ==> !Clean(store, bestEffort, c)
    {
      if c.hash in store.insecure {
        return [], false;
      }
      var r := Fetch(store, c);
      if * {
        disturbed := true;
        r := Unreadable;
      }
      links, ok := [], true;
      if r.Fetched? {
        links := r.links;
      } else if !(bestEffort && r.NotFound?) {
        errors := true;
        var cancelled := Send(CannotFetchLinks(c));
        ok := !cancelled;
      }
    }

    /** Fetches the links of a node that has been visited. */
    method FollowLinks(c: Cid, bestEffort: bool, todo: set<Cid>, inflight: set<Cid>, ghost base: iset<Cid>,
                       ghost region: iset<Cid>)
      returns (more: set<Cid>, ok: bool)
      requires OnlyMarking(output) && c in inflight && Closed(store, base, region)
      requires Walking(store, bestEffort, base, region, gcs, errors, todo, inflight)
      modifies this`errors, this`output, this`disturbed
      ensures OnlyMarking(output) && (old(errors) ==> errors) && (old(disturbed) ==> disturbed)
      ensures old(output) <= output && (ok && errors && !old(errors) ==> output != old(output))
      ensures (errors && !old(errors)) || !ok ==> disturbed || Trouble(store, bestEffort, base, region)
      ensures ok ==> Walking(store, bestEffort, base, region, gcs, errors, todo + more, inflight - {c})
      ensures forall d :: d in more ==> ToCidV1(d) in AllTargets(store)
    {
      var links;
      links, ok := GetLinks(c, bestEffort);
      CulpritIsTrouble(store, bestEffort, base, region, gcs, c);
      more := Cids(links);
      if ok {
        FetchKeepsWalking(store, bestEffort, base, region, gcs, old(errors), errors, todo, inflight, c, links);
      } else {
        more := {};
      }
    }

    /**
     dag.Walk with the Concurrent option: nodes are visited and fetched in any order. A node is fetched only if its
     visit entered it into the set.
     */
    method Walk(root: Cid, bestEffort: bool, ghost base: iset<Cid>, ghost region: iset<Cid>) returns (ok: bool)
      requires OnlyMarking(output)
      requires Region(store, base, {ToCidV1(root)}, region) && AsISet(gcs) >= base
      requires Progress(store, bestEffort, base, region, gcs, errors)
      modifies this
      ensures OnlyMarking(output)
      ensures old(gcs) <= gcs && (old(errors) ==> errors) && (old(disturbed) ==> disturbed)
      ensures Progress(store, bestEffort, base, region, gcs, errors || !ok)
      ensures ok && !errors ==> ToCidV1(root) in gcs
      ensures old(output) <= output && (ok && errors && !old(errors) ==> output != old(output))
      ensures (errors && !old(errors)) || !ok ==> disturbed || Trouble(store, bestEffort, base, region)
    {
      var todo, inflight := {root}, {};
      ghost var universe := gcs + {ToCidV1(root)} + AllTargets(store);
      while todo != {} || inflight != {}
        invariant OnlyMarking(output)
        invariant old(gcs) <= gcs <= universe && (old(errors) ==> errors) && (old(disturbed) ==> disturbed)
        invariant forall c :: c in todo ==> ToCidV1(c) in universe
        invariant Walking(store, bestEffort, base, region, gcs, errors, todo, inflight)
        invariant ToCidV1(root) in gcs || root in todo
        invariant old(output) <= output && (errors && !old(errors) ==> output != old(output))
        invariant errors && !old(errors) ==> disturbed || Trouble(store, bestEffort, base, region)
        decreases universe - gcs, inflight, todo
      {
        var cancelled: bool := *;
        if cancelled {
          disturbed := true;
          return false;
        }
        var visit: bool := *;
        if inflight == {} || (visit && todo != {}) {
          var c :| c in todo;
          VisitKeepsWalking(store, bestEffort, base, region, gcs, errors, todo, inflight, c);
          todo := todo - {c};
          if ToCidV1(c) !in gcs {
            gcs := gcs + {ToCidV1(c)};
            inflight := inflight + {c};
          }
        } else {
          var c :| c in inflight;
          var more, fetched := FollowLinks(c, bestEffort, todo, inflight, base, region);
          if !fetched {
            return false;
          }
          todo, inflight := todo + more, inflight - {c};
        }
      }
      ok := true;
    }

    method Descendants(roots: seq<Cid>, bestEffort: bool, ghost base: iset<Cid>) returns (ok: bool)
      requires OnlyMarking(output) && base == AsISet(gcs)
      modifies this
      ensures OnlyMarking(output)
      ensures old(gcs) <= gcs && (old(errors) ==> errors) && (old(disturbed) ==> disturbed)
      ensures old(output) <= output && (ok && errors && !old(errors) ==> output != old(output))
      ensures ok && !errors ==>
                AsISet(gcs) == Pass(store, base, roots) && CleanPass(store, bestEffort, base, Pass(store, base, roots))
      ensures (errors && !old(errors)) || !ok ==>
                disturbed || !CleanPass(store, bestEffort, base, Pass(store, base, roots))
    {
      ghost var region := Reach(store, base, V1(roots));
      ReachIsRegion(store, base, V1(roots));
      for i := 0 to |roots|
        invariant OnlyMarking(output)
        invariant old(gcs) <= gcs && (old(errors) ==> errors) && (old(disturbed) ==> disturbed)
        invariant Progress(store, bestEffort, base, region, gcs, errors)
        invariant !errors ==> forall j :: 0 <= j < i ==> ToCidV1(roots[j]) in gcs
        invariant old(output) <= output && (errors && !old(errors) ==> output != old(output))
        invariant errors && !old(errors) ==> disturbed || Trouble(store, bestEffort, base, region)
      {
        assert ToCidV1(roots[i]) in V1(roots);
        var walked := Walk(roots[i], bestEffort, base, region);
        if !walked {
          return false;
        }
      }
      ok := true;
      if !errors {
        DoneIsPass(store, bestEffort, base, roots, gcs);
      }
    }

    /**
     One walked group of pins in ColoredSet: a walk that stops is reported, and marking goes on with the next group.
     */
    method MarkPass(roots: seq<Cid>, bestEffort: bool) returns (cancelled: bool)
      requires OnlyMarking(output)
      modifies this
      ensures OnlyMarking(output)
      ensures (old(errors) ==> errors) && (old(disturbed) ==> disturbed) && (cancelled ==> disturbed)
      ensures old(output) <= output && (!cancelled && errors && !old(errors) ==> output != old(output))
      ensures var base := old(AsISet(gcs));
              && (!cancelled && !errors ==>
                    AsISet(gcs) == Pass(store, base, roots) && CleanPass(store, bestEffort, base, AsISet(gcs)))
              && (errors && !old(errors) ==> disturbed || !CleanPass(store, bestEffort, base, Pass(store, base, roots)))
    {
      var walked := Descendants(roots, bestEffort, AsISet(gcs));
      cancelled := false;
      if !walked {
        errors := true;
        cancelled := Send(WalkFailed);
      }
    }

    method AddDirect(keys: seq<Cid>)
      modifies this`gcs
      ensures AsISet(gcs) == old(AsISet(gcs)) + iset c | c in V1(keys)
    {
      for i := 0 to |keys|
        invariant gcs == old(gcs) + V1(keys[..i])
      {
        gcs := gcs + {ToCidV1(keys[i])};
      }
      assert keys[..|keys|] == keys;
    }

    /**
     The marked set, or the error to report: some link could not be followed, the run was cancelled or the pinner
     failed.
     */
    method ColoredSet(pins: Pins) returns (marked: Result<set<Cid>, GcResult>)
      requires gcs == {} && !errors && output == [] && !disturbed
      modifies this
      ensures OnlyMarking(output)
      ensures marked.Ok? ==> AsISet(marked.value) == Marked(store, pins) && Markable(store, pins)
      ensures marked.Err? ==> marked.error == Failed || (marked.error == CannotFetchAllLinks && errors)
      ensures marked.Err? && !disturbed ==> marked.error == CannotFetchAllLinks && !Markable(store, pins)
    {
      assert AsISet(gcs) == iset{};
      var cancelled: bool := *;   // RecursiveKeys may fail
      if cancelled {
        disturbed := true;
        return Err(Failed);
      }
      cancelled := MarkPass(pins.recursive, false);
      if cancelled {
        return Err(Failed);
      }
      cancelled := MarkPass(pins.bestEffort, true);
      if cancelled {
        return Err(Failed);
      }
      cancelled := *;             // DirectKeys may fail
      if cancelled {
        disturbed := true;
        return Err(Failed);
      }
      AddDirect(pins.direct);
      cancelled := *;             // InternalPins may fail
      if cancelled {
        disturbed := true;
        return Err(Failed);
      }
      cancelled := MarkPass(pins.internals, false);
      if cancelled {
        return Err(Failed);
      }
      if errors {
        return Err(CannotFetchAllLinks);
      }
      return Ok(gcs);
    }
  }

  // ---------------------------------------------------------------- the code: sweeping

  class Blockstore {
    /** The stored blocks, by the raw version-1 CIDs under which AllKeysChan reports them. */
    var blocks: set<Cid>
    /** Every delete that took effect, in order. */
    ghost var deleted: seq<Cid>

    ghost predicate Valid()
      reads this
    {
      forall k :: k in blocks ==> k == Cid(1, 0x55, k.hash)
    }

    method DeleteBlock(k: Cid) returns (ok: bool)
      requires k in blocks
      modifies this
      ensures ok ==> blocks == old(blocks) - {k} && deleted == old(deleted) + [k]
      ensures !ok ==> blocks == old(blocks) && deleted == old(deleted)
    {
      ok := *;
      if ok {
        blocks := blocks - {k};
        deleted := deleted + [k];
      }
    }
  }

  method ToRawCids(cids: set<Cid>) returns (raw: set<Cid>)
    ensures forall k :: k in raw <==> k == Cid(1, 0x55, k.hash) && exists c :: c in cids && c.hash == k.hash
  {
    raw := {};
    var todo := cids;
    while todo != {}
      invariant todo <= cids
      invariant forall k :: k in raw <==> k == ToRaw(k) && exists c :: c in cids - todo && c.hash == k.hash
      decreases todo
    {
      var c :| c in todo;
      raw, todo := raw + {ToRaw(c)}, todo - {c};
    }
    assert cids - todo == cids;
  }

  /** Some marked CID has the multihash of block `k`. */
  ghost predicate Wanted(s: Store, pins: Pins, k: Cid) {
    exists c :: c in Marked(s, pins) && c.hash == k.hash
  }

  function Removals(output: seq<GcResult>): (keys: seq<Cid>) {
    if output == [] then []
    else
      var last := output[|output| - 1];
      Removals(output[..|output| - 1]) + if last.KeyRemoved? then [last.key] else []
  }

  lemma {:induction false} ResultAppended(output: seq<GcResult>, r: GcResult)
    ensures Removals(output + [r]) == Removals(output) + if r.KeyRemoved? then [r.key] else []
    ensures NoDeleteErrors(output + [r]) == (NoDeleteErrors(output) && !r.CannotDeleteBlock?)
  {
    var output' := output + [r];
    assert output'[..|output|] == output;
    assert forall i :: 0 <= i < |output| ==> output'[i] == output[i];
    assert output'[|output|] == r;
  }

  lemma {:induction false} NothingRemovedYet(output: seq<GcResult>)
    requires OnlyMarking(output)
    ensures Removals(output) == []
    decreases |output|
  {
    if output != [] {
      NothingRemovedYet(output[..|output| - 1]);
    }
  }

  predicate NoDeleteErrors(output: seq<GcResult>) {
    forall i :: 0 <= i < |output| ==> !output[i].CannotDeleteBlock?
  }

  /** What the delete log says about the store: no wanted block went, and the log accounts for all that did. */
  ghost predicate Swept(before: set<Cid>, after: set<Cid>, log: seq<Cid>, raw: set<Cid>) {
    && (forall k :: k in after <==> k in before && k !in log)
    && (forall k :: k in log ==> k in before && k !in raw)
    && forall i, j :: 0 <= i < j < |log| ==> log[i] != log[j]
  }

  lemma SweptOneMore(before: set<Cid>, after: set<Cid>, log: seq<Cid>, raw: set<Cid>, k: Cid)
    requires Swept(before, after, log, raw) && k in after && k !in raw
    ensures Swept(before, after - {k}, log + [k], raw)
  {
    var log' := log + [k];
    forall x
      ensures x in log' <==> x in log || x == k
    {
      if x in log {
        var i :| 0 <= i < |log| && log[i] == x;
        assert log'[i] == x;
      } else if x == k {
        assert log'[|log|] == x;
      }
    }
  }

  /** Deletes one block that is not wanted. What happened is to be reported, unless the run is cancelled right then. */
  method Reclaim(bs: Blockstore, k: Cid, raw: set<Cid>, sofar: seq<GcResult>, ghost before: set<Cid>)
    returns (output: seq<GcResult>, ok: bool, cancelled: bool)
    requires k in bs.blocks && k !in raw && Swept(before, bs.blocks, bs.deleted, raw) && Removals(sofar) == bs.deleted
    modifies bs
    ensures Swept(before, bs.blocks, bs.deleted, raw)
    ensures bs.blocks == if ok then old(bs.blocks) - {k} else old(bs.blocks)
    ensures if cancelled then Removals(output) <= bs.deleted else Removals(output) == bs.deleted
    ensures !cancelled ==> NoDeleteErrors(output) == (NoDeleteErrors(sofar) && ok)
  {
    output := sofar;
    SweptOneMore(before, bs.blocks, bs.deleted, raw, k);
    ok := bs.DeleteBlock(k);
    cancelled := *;
    if !cancelled {
      ResultAppended(output, if ok then KeyRemoved(k) else CannotDeleteBlock(k));
      output := output + [if ok then KeyRemoved(k) else CannotDeleteBlock(k)];
    }
  }

  method Sweep(bs: Blockstore, raw: set<Cid>, sofar: seq<GcResult>)
    returns (output: seq<GcResult>, ghost cancelled: bool)
    requires OnlyMarking(sofar) && bs.deleted == []
    modifies bs
    ensures Swept(old(bs.blocks), bs.blocks, bs.deleted, raw)
    ensures if cancelled then Removals(output) <= bs.deleted else Removals(output) == bs.deleted
    ensures !cancelled && NoDeleteErrors(output) ==> forall k :: k in bs.blocks ==> k in raw
    ensures cancelled || NoDeleteErrors(output) || output[|output| - 1] == CannotDeleteSomeBlocks
  {
    NothingRemovedYet(sofar);
    output, cancelled := sofar, false;
    var errors := false;
    var keychan := bs.blocks;
    while keychan != {}
      invariant keychan <= bs.blocks
      invariant Swept(old(bs.blocks), bs.blocks, bs.deleted, raw)
      invariant Removals(output) == bs.deleted && !cancelled
      invariant NoDeleteErrors(output) == !errors
      invariant !errors ==> forall k :: k in bs.blocks && k !in keychan ==> k in raw
      decreases keychan
    {
      var done: bool := *;
      if done {
        cancelled := true;
        break;
      }
      var k :| k in keychan;
      keychan := keychan - {k};
      if k !in raw {
        var ok;
        output, ok, done := Reclaim(bs, k, raw, output, old(bs.blocks));
        errors := errors || !ok;
        if done {
          cancelled := true;
          break;
        }
      }
    }
    if errors {
      var done: bool := *;
      if done {
        cancelled := true;
      } else {
        ResultAppended(output, CannotDeleteSomeBlocks);
        output := output + [CannotDeleteSomeBlocks];
      }
    }
  }

  /** The log accounts for every block that is gone, names each once, and none of them was wanted. */
  ghost predicate Collected(s: Store, pins: Pins, before: set<Cid>, after: set<Cid>, log: seq<Cid>) {
    && after == before - set k | k in log
    && (forall i :: 0 <= i < |log| ==> log[i] in before && !Wanted(s, pins, log[i]))
    && forall i, j :: 0 <= i < j < |log| ==> log[i] != log[j]
  }

  lemma SweptIsCollected(s: Store, pins: Pins, before: set<Cid>, after: set<Cid>, log: seq<Cid>, raw: set<Cid>)
    requires (forall k :: k in before ==> k == ToRaw(k)) && Swept(before, after, log, raw)
    requires forall k :: k == ToRaw(k) ==> (k in raw <==> Wanted(s, pins, k))
    ensures Collected(s, pins, before, after, log)
    ensures (forall k :: k in after ==> k in raw) ==> forall k :: k in after <==> k in before && Wanted(s, pins, k)
  {
    forall i | 0 <= i < |log|
      ensures log[i] in before && !Wanted(s, pins, log[i])
    {
      assert log[i] in log;
    }
    assert after == before - set k | k in log;
  }

  /** The part of a run that follows a successful marking. */
  method SweepUnwanted(bs: Blockstore, store: Store, pins: Pins, marked: set<Cid>, sofar: seq<GcResult>)
    returns (output: seq<GcResult>, ghost disturbed: bool)
    requires bs.Valid() && bs.deleted == [] && OnlyMarking(sofar) && AsISet(marked) == Marked(store, pins)
    modifies bs
    ensures bs.Valid() && Collected(store, pins, old(bs.blocks), bs.blocks, bs.deleted)
    ensures if disturbed then Removals(output) <= bs.deleted else Removals(output) == bs.deleted
    ensures disturbed || NoDeleteErrors(output) || output[|output| - 1] == CannotDeleteSomeBlocks
    ensures !disturbed && NoDeleteErrors(output) ==>
              forall k :: k in bs.blocks <==> k in old(bs.blocks) && Wanted(store, pins, k)
  {
    var raw := ToRawCids(marked);
    RawIsWanted(store, pins, marked, raw);
    var failing: bool := *;     // AllKeysChan may fail
    if failing {
      output := NotSwept(sofar);
      disturbed := true;
      NothingCollected(store, pins, bs.blocks);
      return;
    }
    output, disturbed := Sweep(bs, raw, sofar);
    SweptIsCollected(store, pins, old(bs.blocks), bs.blocks, bs.deleted, raw);
  }

  lemma NothingCollected(s: Store, pins: Pins, blocks: set<Cid>)
    ensures Collected(s, pins, blocks, blocks, [])
  {}

  /** The output of a run that could not list the blocks. */
  method NotSwept(sofar: seq<GcResult>) returns (output: seq<GcResult>)
    requires OnlyMarking(sofar)
    ensures Removals(output) == []
  {
    NothingRemovedYet(sofar);
    output := sofar;
    var cancelled: bool := *;
    if !cancelled {
      ResultAppended(output, Failed);
      output := output + [Failed];
    }
  }

  /**
   A whole run. `disturbed` is false only for a run that was not cancelled and met no failure beyond those the store
   holds; a failed delete is no disturbance but shows up in the output.
   */
  method Gc(bs: Blockstore, store: Store, pins: Pins) returns (output: seq<GcResult>, ghost disturbed: bool)
    requires bs.Valid()
    modifies bs
    ensures bs.Valid() && Collected(store, pins, old(bs.blocks), bs.blocks, bs.deleted)
    ensures !Markable(store, pins) ==> bs.blocks == old(bs.blocks)
    ensures !Markable(store, pins) && !disturbed ==> output != [] && output[|output| - 1] == CannotFetchAllLinks
    ensures if disturbed then Removals(output) <= bs.deleted else Removals(output) == bs.deleted
    ensures disturbed || NoDeleteErrors(output) || output[|output| - 1] == CannotDeleteSomeBlocks
    ensures !disturbed && Markable(store, pins) && NoDeleteErrors(output) ==>
              forall k :: k in bs.blocks <==> k in old(bs.blocks) && Wanted(store, pins, k)
  {
    bs.deleted := [];
    var marker := new Marker(store);
    var marked := marker.ColoredSet(pins);
    if marked.Err? {
      output, disturbed := marker.output, marker.disturbed;
      NothingRemovedYet(output);
      var cancelled: bool := *;
      if cancelled {
        disturbed := true;
      } else {
        ResultAppended(output, marked.error);
        output := output + [marked.error];
      }
      return;
    }
    output, disturbed := SweepUnwanted(bs, store, pins, marked.value, marker.output);
    disturbed := disturbed || marker.disturbed;
  }

  lemma RawIsWanted(s: Store, pins: Pins, marked: set<Cid>, raw: set<Cid>)
    requires AsISet(marked) == Marked(s, pins)
    requires forall k :: k in raw <==> k == ToRaw(k) && exists c :: c in marked && c.hash == k.hash
    ensures forall k :: k == ToRaw(k) ==> (k in raw <==> Wanted(s, pins, k))
  {
    forall k | k == ToRaw(k)
      ensures k in raw <==> Wanted(s, pins, k)
    {
      if k in raw {
        var c :| c in marked && c.hash == k.hash;
        assert c in AsISet(marked);
      }
      if Wanted(s, pins, k) {
        var c :| c in Marked(s, pins) && c.hash == k.hash;
        assert c in AsISet(marked);
      }
    }
  }

  // ---------------------------------------------------------------- what the marked set protects

  /** Plain reachability: readable links from a root, nothing in the way. */
  ghost predicate Linked(s: Store, roots: seq<Cid>, c: Cid) { Reachable(s, iset{}, V1(roots), c) }

  /** A closed set that holds the roots holds all that is reachable. */
  lemma {:induction false} StepsStayIn(s: Store, base: iset<Cid>, roots: set<Cid>, region: iset<Cid>, c: Cid, n: nat)
    requires Region(s, base, roots, region) && Steps(s, base, roots, c, n)
    ensures c in region
    decreases n
  {
    if n > 0 {
      var m :| m !in base && c in Targets(s, m) && Steps(s, base, roots, m, n - 1);
      StepsStayIn(s, base, roots, region, m, n - 1);
    }
  }

  lemma LinkedStaysIn(s: Store, roots: seq<Cid>, region: iset<Cid>, c: Cid)
    requires Region(s, iset{}, V1(roots), region) && Linked(s, roots, c)
    ensures c in region
  {
    var n: nat :| Steps(s, iset{}, V1(roots), c, n);
    StepsStayIn(s, iset{}, V1(roots), region, c, n);
  }

  /** A pass over a closed base leaves a closed set. */
  lemma PassIsClosed(s: Store, base: iset<Cid>, roots: seq<Cid>)
    requires forall m, c :: m in base && c in Targets(s, m) ==> c in base
    ensures Region(s, iset{}, V1(roots), Pass(s, base, roots))
  {
    ReachIsRegion(s, base, V1(roots));
  }

  lemma BestEffortIsClosed(s: Store, pins: Pins)
    ensures Region(s, iset{}, V1(pins.recursive), MarkedBestEffort(s, pins))
    ensures Region(s, iset{}, V1(pins.bestEffort), MarkedBestEffort(s, pins))
  {
    PassIsClosed(s, iset{}, pins.recursive);
    PassIsClosed(s, MarkedRecursive(s, pins), pins.bestEffort);
    ReachIsRegion(s, iset{}, V1(pins.recursive));
  }

  /** A direct pin, and all that is linked from a recursive pin or a best-effort root, is marked. */
  lemma PinnedIsMarked(s: Store, pins: Pins, c: Cid)
    requires c in V1(pins.direct) || Linked(s, pins.recursive, c) || Linked(s, pins.bestEffort, c)
    ensures c in Marked(s, pins) && forall k: Cid :: k.hash == c.hash ==> Wanted(s, pins, k)
  {
    MarkedIff(s, pins, c);
  }

  /** The other half: nothing is marked without a pin to answer for it. */
  lemma MarkedIsPinned(s: Store, pins: Pins, c: Cid)
    requires c in Marked(s, pins)
    ensures || c in V1(pins.direct) || Linked(s, pins.recursive, c) || Linked(s, pins.bestEffort, c)
            || Linked(s, pins.internals, c)
  {
    MarkedIff(s, pins, c);
    if c in Reach(s, AllUnwalked(s, pins), V1(pins.internals)) {
      ReachIsLinked(s, AllUnwalked(s, pins), pins.internals, c);
    }
  }

  lemma ReachIsLinked(s: Store, base: iset<Cid>, roots: seq<Cid>, c: Cid)
    requires c in Reach(s, base, V1(roots))
    ensures Linked(s, roots, c)
  {
    ReachIsRegion(s, iset{}, V1(roots));
    var n: nat :| Steps(s, base, V1(roots), c, n);
    StepsStayIn(s, base, V1(roots), Reach(s, iset{}, V1(roots)), c, n);
  }

  /** A direct pin that no recursive pin and no best-effort root leads to: it is marked, and nobody walks it. */
  ghost predicate Unwalked(s: Store, pins: Pins, d: Cid) {
    d in V1(pins.direct) && !Linked(s, pins.recursive, d) && !Linked(s, pins.bestEffort, d)
  }

  ghost function AllUnwalked(s: Store, pins: Pins): iset<Cid> { iset d: Cid | Unwalked(s, pins, d) }

  /** What the pins ask to keep: internal pins reach on, but not through an unwalked direct pin. */
  ghost predicate Kept(s: Store, pins: Pins, c: Cid) {
    || c in V1(pins.direct) || Linked(s, pins.recursive, c) || Linked(s, pins.bestEffort, c)
    || Reachable(s, AllUnwalked(s, pins), V1(pins.internals), c)
  }

  lemma BestEffortIsLinked(s: Store, pins: Pins, c: Cid)
    ensures c in MarkedBestEffort(s, pins) <==> Linked(s, pins.recursive, c) || Linked(s, pins.bestEffort, c)
  {
    BestEffortIsClosed(s, pins);
    if Linked(s, pins.recursive, c) {
      LinkedStaysIn(s, pins.recursive, MarkedBestEffort(s, pins), c);
    } else if Linked(s, pins.bestEffort, c) {
      LinkedStaysIn(s, pins.bestEffort, MarkedBestEffort(s, pins), c);
    } else if c in MarkedBestEffort(s, pins) && c !in MarkedRecursive(s, pins) {
      ReachIsLinked(s, MarkedRecursive(s, pins), pins.bestEffort, c);
    }
  }

  /** A walk that is stopped by all that is marked gets past everything except unwalked direct pins. */
  lemma MarkedIsRegion(s: Store, pins: Pins)
    ensures Region(s, AllUnwalked(s, pins), V1(pins.internals), Marked(s, pins))
  {
    var base := MarkedDirect(s, pins);
    ReachIsRegion(s, base, V1(pins.internals));
    BestEffortIsClosed(s, pins);
    forall m, c | m in Marked(s, pins) && m !in AllUnwalked(s, pins) && c in Targets(s, m)
      ensures c in Marked(s, pins)
    {
      BestEffortIsLinked(s, pins, m);
      if m in base {
        assert c in MarkedBestEffort(s, pins);
      }
    }
  }

  lemma UnwalkedReachIsRegion(s: Store, pins: Pins)
    ensures Region(s, MarkedDirect(s, pins), V1(pins.internals), Reach(s, AllUnwalked(s, pins), V1(pins.internals)))
  {
    ReachIsRegion(s, AllUnwalked(s, pins), V1(pins.internals));
  }

  /** The marked set, exactly, in terms of the links and the pins alone. */
  lemma MarkedIff(s: Store, pins: Pins, c: Cid)
    ensures c in Marked(s, pins) <==> Kept(s, pins, c)
  {
    var unwalked, roots := AllUnwalked(s, pins), V1(pins.internals);
    BestEffortIsLinked(s, pins, c);
    if Reachable(s, unwalked, roots, c) {
      MarkedIsRegion(s, pins);
      var n: nat :| Steps(s, unwalked, roots, c, n);
      StepsStayIn(s, unwalked, roots, Marked(s, pins), c, n);
    }
    if c in Reach(s, MarkedDirect(s, pins), roots) {
      UnwalkedReachIsRegion(s, pins);
      var n: nat :| Steps(s, MarkedDirect(s, pins), roots, c, n);
      StepsStayIn(s, MarkedDirect(s, pins), roots, Reach(s, unwalked, roots), c, n);
    }
  }

  /** The blocks a sweep spares, exactly, in terms of the links and the pins alone. */
  lemma WantedIff(s: Store, pins: Pins, k: Cid)
    ensures Wanted(s, pins, k) <==> exists c :: Kept(s, pins, c) && c.hash == k.hash
  {
    if Wanted(s, pins, k) {
      var c :| c in Marked(s, pins) && c.hash == k.hash;
      MarkedIff(s, pins, c);
    }
    if exists c :: Kept(s, pins, c) && c.hash == k.hash {
      var c :| Kept(s, pins, c) && c.hash == k.hash;
      MarkedIff(s, pins, c);
    }
  }

  /** Internal pins lead to the unwalked direct pin `d`, and `c` is next after it. */
  ghost predicate Shadowed(s: Store, pins: Pins, d: Cid, c: Cid) {
    Unwalked(s, pins, d) && Linked(s, pins.internals, d) && c in Targets(s, d)
  }

  /**
   Everything linked from the internal pins is marked exactly when each link behind an unwalked direct pin leads to
   something that the pins ask to keep for another reason.
   */
  lemma InternalsMarkedIff(s: Store, pins: Pins)
    ensures (forall c :: Linked(s, pins.internals, c) ==> c in Marked(s, pins)) <==>
            (forall d, c :: Shadowed(s, pins, d, c) ==> Kept(s, pins, c))
  {
    if forall c :: Linked(s, pins.internals, c) ==> c in Marked(s, pins) {
      ReachIsRegion(s, iset{}, V1(pins.internals));
      forall d, c | Shadowed(s, pins, d, c)
        ensures Kept(s, pins, c)
      {
        assert c in Reach(s, iset{}, V1(pins.internals));
        MarkedIff(s, pins, c);
      }
    }
    if forall d, c :: Shadowed(s, pins, d, c) ==> Kept(s, pins, c) {
      forall c | Linked(s, pins.internals, c)
        ensures c in Marked(s, pins)
      {
        InternalIsMarked(s, pins, c);
      }
    }
  }

  lemma InternalIsMarked(s: Store, pins: Pins, c: Cid)
    requires forall d, t :: Shadowed(s, pins, d, t) ==> Kept(s, pins, t)
    requires Linked(s, pins.internals, c)
    ensures c in Marked(s, pins)
  {
    var all := Reach(s, iset{}, V1(pins.internals));
    ReachIsRegion(s, iset{}, V1(pins.internals));
    MarkedIsRegion(s, pins);
    forall m, t | m in Marked(s, pins) * all && t in Targets(s, m)
      ensures t in Marked(s, pins) * all
    {
      if Unwalked(s, pins, m) {
        assert Shadowed(s, pins, m, t);
        MarkedIff(s, pins, t);
      }
    }
    LinkedStaysIn(s, pins.internals, Marked(s, pins) * all, c);
  }

  /** Without an unwalked direct pin in the way, all that internal pins lead to survives every sweep. */
  lemma InternalsAreSafe(s: Store, pins: Pins, c: Cid, k: Cid)
    requires forall d :: Linked(s, pins.internals, d) ==> !Unwalked(s, pins, d)
    requires Linked(s, pins.internals, c) && k.hash == c.hash
    ensures Wanted(s, pins, k)
  {
    InternalIsMarked(s, pins, c);
  }

  /** An internal pin that links to a direct pin, which links to a third block. */
  const INTERNAL := Cid(1, 0x70, 1)
  const DIRECT := Cid(1, 0x70, 2)
  const THIRD := Cid(1, 0x70, 3)
  const CHAIN := Store(map[INTERNAL := [Link("", DIRECT)], DIRECT := [Link("", THIRD)], THIRD := []], {}, {})
  const CHAIN_PINS := Pins([], [], [DIRECT], [INTERNAL])

  lemma ChainFacts()
    ensures Targets(CHAIN, INTERNAL) == {DIRECT} && Targets(CHAIN, DIRECT) == {THIRD} && Targets(CHAIN, THIRD) == {}
    ensures V1([INTERNAL]) == {INTERNAL} && V1([DIRECT]) == {DIRECT}
    ensures MarkedBestEffort(CHAIN, CHAIN_PINS) == iset{} && MarkedDirect(CHAIN, CHAIN_PINS) == iset{DIRECT}
  {
    assert CHAIN.dag[INTERNAL][0].cid == DIRECT && CHAIN.dag[DIRECT][0].cid == THIRD;
    assert INTERNAL in [INTERNAL] && DIRECT in [DIRECT];
    NoRootsNoMarks(CHAIN, iset{});
  }

  lemma NoRootsNoMarks(s: Store, base: iset<Cid>)
    ensures Pass(s, base, []) == base
  {
    forall c | c in Reach(s, base, V1([]))
      ensures false
    {
      var n: nat :| Steps(s, base, V1([]), c, n);
      StepsStayIn(s, base, V1([]), iset{}, c, n);
    }
  }

  /**
   The condition can fail. The direct pin is in the set before the internal pin is walked, so the walk stops there and
   the third block, though linked from the internal pin, is left to the sweep.
   */
  lemma InternalsCanBeLost()
    ensures Linked(CHAIN, CHAIN_PINS.internals, THIRD) && Markable(CHAIN, CHAIN_PINS)
    ensures THIRD !in Marked(CHAIN, CHAIN_PINS) && !Wanted(CHAIN, CHAIN_PINS, ToRaw(THIRD))
  {
    ChainFacts();
    assert Steps(CHAIN, iset{}, {INTERNAL}, INTERNAL, 0);
    assert Steps(CHAIN, iset{}, {INTERNAL}, DIRECT, 1);
    assert Steps(CHAIN, iset{}, {INTERNAL}, THIRD, 2);
    NoRootsNoMarks(CHAIN, iset{});
    forall c | c in Marked(CHAIN, CHAIN_PINS)
      ensures c == INTERNAL || c == DIRECT
    {
      if c != DIRECT {
        var n: nat :| Steps(CHAIN, iset{DIRECT}, {INTERNAL}, c, n);
        StepsStayIn(CHAIN, iset{DIRECT}, {INTERNAL}, iset{INTERNAL, DIRECT}, c, n);
      }
    }
  }
}
