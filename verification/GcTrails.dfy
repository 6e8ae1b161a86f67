/**
 What a collection keeps (gc/gc.go), told on the pins and links as they are written.

 A pin or a link may be written with either version of a CID. Blocks are decoded by the version-1 CID of the same codec
 and multihash, so the version in which something is pinned or linked plays no part in what is kept.
 */
module GcTrails {
  import opened Ipld
  import opened Gc

  /** The CID `c`, as written in a pin or a link, stands for `k`: same codec, same multihash, and never version 0. */
  predicate StandsFor(c: Cid, k: Cid) {
    k.codec == c.codec && k.hash == c.hash && k.version == if c.version == 0 then 1 else c.version
  }

  predicate Names(cids: seq<Cid>, k: Cid) { exists i :: 0 <= i < |cids| && StandsFor(cids[i], k) }

  /** The block decoded by `m` holds a link to `k`. */
  predicate LinksTo(s: Store, m: Cid, k: Cid) {
    m in s.dag && exists i :: 0 <= i < |s.dag[m]| && StandsFor(s.dag[m][i].cid, k)
  }

  /** A trail of links from something named in `cids`. */
  ghost predicate IsTrail(s: Store, cids: seq<Cid>, trail: seq<Cid>) {
    && trail != [] && Names(cids, trail[0])
    && forall i :: 0 < i < |trail| ==> LinksTo(s, trail[i - 1], trail[i])
  }

  /** The trail leads to `k`, and does not go on from anything in `blocked`. */
  ghost predicate Leads(s: Store, cids: seq<Cid>, blocked: iset<Cid>, trail: seq<Cid>, k: Cid) {
    IsTrail(s, cids, trail) && trail[|trail| - 1] == k && forall i :: 0 <= i < |trail| - 1 ==> trail[i] !in blocked
  }

  ghost predicate LedTo(s: Store, cids: seq<Cid>, blocked: iset<Cid>, k: Cid) {
    exists trail :: Leads(s, cids, blocked, trail, k)
  }

  // ---------------------------------------------------------------- trails and reachability

  lemma NamesIff(cids: seq<Cid>, k: Cid)
    ensures Names(cids, k) <==> k in V1(cids)
  {
    if Names(cids, k) {
      var i :| 0 <= i < |cids| && StandsFor(cids[i], k);
      assert cids[i] in cids && ToCidV1(cids[i]) == k;
    }
    if k in V1(cids) {
      var c :| c in cids && ToCidV1(c) == k;
      var i :| 0 <= i < |cids| && cids[i] == c;
      assert StandsFor(cids[i], k);
    }
  }

  lemma LinksToIff(s: Store, m: Cid, k: Cid)
    ensures LinksTo(s, m, k) <==> k in Targets(s, m)
  {
    if LinksTo(s, m, k) {
      var i :| 0 <= i < |s.dag[m]| && StandsFor(s.dag[m][i].cid, k);
      assert ToCidV1(s.dag[m][i].cid) == k;
    }
    if k in Targets(s, m) {
      var i :| 0 <= i < |s.dag[m]| && ToCidV1(s.dag[m][i].cid) == k;
      assert StandsFor(s.dag[m][i].cid, k);
    }
  }

  lemma {:induction false} TrailIsSteps(s: Store, cids: seq<Cid>, blocked: iset<Cid>, trail: seq<Cid>, k: Cid)
    requires Leads(s, cids, blocked, trail, k)
    ensures Steps(s, blocked, V1(cids), k, |trail| - 1)
    decreases |trail|
  {
    var n := |trail| - 1;
    if n == 0 {
      NamesIff(cids, k);
    } else {
      var front := trail[..n];
      assert forall i :: 0 <= i < n ==> front[i] == trail[i];
      assert Leads(s, cids, blocked, front, trail[n - 1]);
      TrailIsSteps(s, cids, blocked, front, trail[n - 1]);
      LinksToIff(s, trail[n - 1], k);
    }
  }

  lemma {:induction false} StepsAreTrail(s: Store, cids: seq<Cid>, blocked: iset<Cid>, k: Cid, n: nat)
    returns (trail: seq<Cid>)
    requires Steps(s, blocked, V1(cids), k, n)
    ensures Leads(s, cids, blocked, trail, k)
    decreases n
  {
    if n == 0 {
      NamesIff(cids, k);
      trail := [k];
    } else {
      var m :| m !in blocked && k in Targets(s, m) && Steps(s, blocked, V1(cids), m, n - 1);
      var front := StepsAreTrail(s, cids, blocked, m, n - 1);
      LinksToIff(s, m, k);
      trail := front + [k];
      assert forall i :: 0 <= i < |front| ==> trail[i] == front[i];
    }
  }

  lemma LedToIff(s: Store, cids: seq<Cid>, blocked: iset<Cid>, k: Cid)
    ensures LedTo(s, cids, blocked, k) <==> Gc.Reachable(s, blocked, V1(cids), k)
  {
    if LedTo(s, cids, blocked, k) {
      var trail :| Leads(s, cids, blocked, trail, k);
      TrailIsSteps(s, cids, blocked, trail, k);
    }
    if Gc.Reachable(s, blocked, V1(cids), k) {
      var n: nat :| Steps(s, blocked, V1(cids), k, n);
      var trail := StepsAreTrail(s, cids, blocked, k, n);
    }
  }

  // ---------------------------------------------------------------- what is kept

  /** A trail from a recursive pin or a best-effort root leads to `k`. */
  ghost predicate Walked(s: Store, pins: Pins, k: Cid) {
    LedTo(s, pins.recursive, iset{}, k) || LedTo(s, pins.bestEffort, iset{}, k)
  }

  /** Direct pins that no recursive pin and no best-effort root leads to. */
  ghost function OnlyDirect(s: Store, pins: Pins): iset<Cid> {
    iset k: Cid | Names(pins.direct, k) && !Walked(s, pins, k)
  }

  lemma OnlyDirectIsUnwalked(s: Store, pins: Pins)
    ensures OnlyDirect(s, pins) == AllUnwalked(s, pins)
  {
    forall k: Cid
      ensures k in OnlyDirect(s, pins) <==> k in AllUnwalked(s, pins)
    {
      NamesIff(pins.direct, k);
      LedToIff(s, pins.recursive, iset{}, k);
      LedToIff(s, pins.bestEffort, iset{}, k);
    }
  }

  /**
   The marked set by trails: direct pins, all that trails from recursive pins and best-effort roots lead to, and all
   that trails from internal pins lead to without going on from a direct pin that nothing else leads to.
   */
  lemma MarkedByTrails(s: Store, pins: Pins, k: Cid)
    ensures k in Marked(s, pins) <==>
            Names(pins.direct, k) || Walked(s, pins, k) || LedTo(s, pins.internals, OnlyDirect(s, pins), k)
  {
    MarkedIff(s, pins, k);
    NamesIff(pins.direct, k);
    LedToIff(s, pins.recursive, iset{}, k);
    LedToIff(s, pins.bestEffort, iset{}, k);
    OnlyDirectIsUnwalked(s, pins);
    LedToIff(s, pins.internals, OnlyDirect(s, pins), k);
  }

  /** A block under a trail from a recursive pin or a best-effort root survives every sweep, as does a direct pin. */
  lemma TrailsAreSafe(s: Store, pins: Pins, k: Cid, block: Cid)
    requires (Names(pins.direct, k) || Walked(s, pins, k)) && block.hash == k.hash
    ensures Wanted(s, pins, block)
  {
    MarkedByTrails(s, pins, k);
  }

  /** What a block linked from a pinned one is worth, whichever version the pin is written in. */
  lemma LinkedBlockIsSafe(s: Store, pins: Pins, codec: nat, h: nat, version: nat, i: nat, block: Cid)
    requires version <= 1 && (Cid(version, codec, h) in pins.recursive || Cid(version, codec, h) in pins.bestEffort)
    requires Cid(1, codec, h) in s.dag && i < |s.dag[Cid(1, codec, h)]|
    requires block.hash == s.dag[Cid(1, codec, h)][i].cid.hash
    ensures Wanted(s, pins, block)
  {
    var root, link := Cid(1, codec, h), s.dag[Cid(1, codec, h)][i].cid;
    var next := Cid(if link.version == 0 then 1 else link.version, link.codec, link.hash);
    var trail := [root, next];
    assert StandsFor(Cid(version, codec, h), root) && StandsFor(link, next);
    if Cid(version, codec, h) in pins.recursive {
      assert Leads(s, pins.recursive, iset{}, trail, next);
    } else {
      assert Leads(s, pins.bestEffort, iset{}, trail, next);
    }
    TrailsAreSafe(s, pins, next, block);
  }

  // ---------------------------------------------------------------- when marking succeeds

  /** The block can be had: its hash is secure and it decodes. */
  predicate AtHand(s: Store, k: Cid) { k.hash !in s.insecure && k in s.dag }

  /** A best-effort root may lead to a block that is not there, but not to one that cannot be read. */
  predicate AtHandOrAbsent(s: Store, k: Cid) { k.hash !in s.insecure && (k in s.dag || k !in s.unreadable) }

  /** What marking demands of `k`. Nothing is demanded of a direct pin that no walk leads to. */
  ghost predicate InTheWay(s: Store, pins: Pins, k: Cid) {
    if LedTo(s, pins.recursive, iset{}, k) then !AtHand(s, k)
    else if LedTo(s, pins.bestEffort, iset{}, k) then !AtHandOrAbsent(s, k)
    else !Names(pins.direct, k) && LedTo(s, pins.internals, OnlyDirect(s, pins), k) && !AtHand(s, k)
  }

  lemma CleanIff(s: Store, k: Cid)
    requires k.version != 0
    ensures Clean(s, false, k) <==> AtHand(s, k)
    ensures Clean(s, true, k) <==> AtHandOrAbsent(s, k)
  {}

  lemma LedToIsNew(s: Store, cids: seq<Cid>, blocked: iset<Cid>, k: Cid)
    requires LedTo(s, cids, blocked, k)
    ensures k.version != 0
  {
    var trail :| Leads(s, cids, blocked, trail, k);
    if |trail| > 1 {
      assert LinksTo(s, trail[|trail| - 2], trail[|trail| - 1]);
    }
  }

  lemma RecursiveByTrails(s: Store, pins: Pins, k: Cid)
    ensures k in MarkedRecursive(s, pins) <==> LedTo(s, pins.recursive, iset{}, k)
    ensures k in MarkedBestEffort(s, pins) <==> Walked(s, pins, k)
    ensures k in MarkedDirect(s, pins) <==> Names(pins.direct, k) || Walked(s, pins, k)
  {
    LedToIff(s, pins.recursive, iset{}, k);
    LedToIff(s, pins.bestEffort, iset{}, k);
    BestEffortIsLinked(s, pins, k);
    NamesIff(pins.direct, k);
  }

  /** Marking succeeds exactly when nothing that it has to walk is in its way. */
  lemma MarkableByTrails(s: Store, pins: Pins)
    ensures Markable(s, pins) <==> forall k :: !InTheWay(s, pins, k)
  {
    forall k: Cid
      ensures !InTheWay(s, pins, k) <==>
              && (k in MarkedRecursive(s, pins) ==> Clean(s, false, k))
              && (k in MarkedBestEffort(s, pins) && k !in MarkedRecursive(s, pins) ==> Clean(s, true, k))
              && (k in Marked(s, pins) && k !in MarkedDirect(s, pins) ==> Clean(s, false, k))
    {
      DemandsOf(s, pins, k);
    }
  }

  lemma DemandsOf(s: Store, pins: Pins, k: Cid)
    ensures !InTheWay(s, pins, k) <==>
            && (k in MarkedRecursive(s, pins) ==> Clean(s, false, k))
            && (k in MarkedBestEffort(s, pins) && k !in MarkedRecursive(s, pins) ==> Clean(s, true, k))
            && (k in Marked(s, pins) && k !in MarkedDirect(s, pins) ==> Clean(s, false, k))
  {
    RecursiveByTrails(s, pins, k);
    MarkedByTrails(s, pins, k);
    if k.version != 0 {
      CleanIff(s, k);
    } else if LedTo(s, pins.recursive, iset{}, k) {
      LedToIsNew(s, pins.recursive, iset{}, k);
    } else if LedTo(s, pins.bestEffort, iset{}, k) {
      LedToIsNew(s, pins.bestEffort, iset{}, k);
    } else if LedTo(s, pins.internals, OnlyDirect(s, pins), k) {
      LedToIsNew(s, pins.internals, OnlyDirect(s, pins), k);
    }
  }

  // ---------------------------------------------------------------- versions

  /** The same CIDs, each in either version. */
  predicate AlikeButVersion(cids: seq<Cid>, cids': seq<Cid>) {
    && |cids| == |cids'|
    && forall i :: 0 <= i < |cids| ==>
         || cids'[i] == cids[i]
         || (cids[i].version <= 1 && exists v :: 0 <= v <= 1 && cids'[i] == Cid(v, cids[i].codec, cids[i].hash))
  }

  lemma NamesAlike(cids: seq<Cid>, cids': seq<Cid>)
    requires AlikeButVersion(cids, cids')
    ensures V1(cids) == V1(cids')
  {
    forall k
      ensures k in V1(cids) <==> k in V1(cids')
    {
      NamesIff(cids, k);
      NamesIff(cids', k);
      forall i | 0 <= i < |cids|
        ensures StandsFor(cids[i], k) <==> StandsFor(cids'[i], k)
      {
      }
    }
  }

  /** In each of the four groups, pinning one version of a CID is pinning the other. */
  lemma VersionPlaysNoPart(s: Store, pins: Pins, pins': Pins)
    requires AlikeButVersion(pins.recursive, pins'.recursive) && AlikeButVersion(pins.bestEffort, pins'.bestEffort)
    requires AlikeButVersion(pins.direct, pins'.direct) && AlikeButVersion(pins.internals, pins'.internals)
    ensures Marked(s, pins) == Marked(s, pins') && (Markable(s, pins) <==> Markable(s, pins'))
    ensures forall block :: Wanted(s, pins, block) <==> Wanted(s, pins', block)
  {
    NamesAlike(pins.recursive, pins'.recursive);
    NamesAlike(pins.bestEffort, pins'.bestEffort);
    NamesAlike(pins.direct, pins'.direct);
    NamesAlike(pins.internals, pins'.internals);
  }
}
