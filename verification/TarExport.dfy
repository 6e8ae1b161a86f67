/**
 The archives that the tar exporter delivers (tar/format.go): what they hold, node by node, and that they are made of
 whole blocks.
 */
module TarExport {
  import opened Common
  import opened Tar

  // ---------------------------------------------------------------- the layout of an archive, node by node

  /** A path through directories. What is linked below a file or a broken entry is no part of the archive. */
  predicate IsNodePath(ns: seq<Node>, p: Path)
    decreases |p|
  {
    && p != [] && p[0] < |ns|
    && (|p| == 1 || (ns[p[0]].Header? && ns[p[0]].data.NoData? && IsNodePath(ns[p[0]].entries, p[1..])))
  }

  function NodeAt(ns: seq<Node>, p: Path): Node
    requires IsNodePath(ns, p)
    decreases |p|
  {
    if |p| == 1 then ns[p[0]] else NodeAt(ns[p[0]].entries, p[1..])
  }

  /** How many bytes of a file can be read, failures in between notwithstanding. */
  function Readable(content: Stream): nat { |set k | 0 <= k < |content| && content[k].Byte?| }

  /** `s` holds `bs` from `at` on. */
  predicate HoldsAt(s: Stream, at: nat, bs: seq<byte>) {
    at + |bs| <= |s| && forall k :: 0 <= k < |bs| ==> s[at + k] == Byte(bs[k])
  }

  /**
   What one node contributes: its header, then the content of a file and as many zero bytes as bring the content to the
   next multiple of 512. A failure to open comes before the header.
   */
  predicate IsPiece(n: Node, s: Stream) {
    match n
    case Unfetchable => s == [Fault]
    case Header(header, data, _) =>
      match data
      case NoData => HoldsAt(s, 0, header) && |s| == |header|
      case BrokenData => |s| == 1 + |header| && s[0] == Fault && HoldsAt(s, 1, header)
      case File(content) =>
        && HoldsAt(s, 0, header) && |header| + |content| <= |s|
        && s[|header|..|header| + |content|] == content
        && (forall k :: |header| + |content| <= k < |s| ==> s[k] == Byte(0))
        && |s| - |header| - |content| < 512 && (Readable(content) + |s| - |header| - |content|) % 512 == 0
  }

  function Joined(pieces: seq<Stream>): Stream { if pieces == [] then [] else pieces[0] + Joined(pieces[1..]) }

  /** The pieces are those of the nodes at `paths`. */
  ghost predicate Fits(ns: seq<Node>, paths: seq<Path>, pieces: seq<Stream>) {
    && |pieces| == |paths|
    && forall k :: 0 <= k < |paths| ==> IsNodePath(ns, paths[k]) && IsPiece(NodeAt(ns, paths[k]), pieces[k])
  }

  ghost function Fittings(ns: seq<Node>): iset<(seq<Path>, seq<Stream>)> {
    iset x: (seq<Path>, seq<Stream>) | Fits(ns, x.0, x.1)
  }

  ghost predicate LaidOut(ns: seq<Node>, s: Stream, paths: seq<Path>, pieces: seq<Stream>) {
    && InOrder(paths) && (forall p :: p in paths <==> IsNodePath(ns, p))
    && (paths, pieces) in Fittings(ns) && s == Joined(pieces)
  }

  /** `s` is the pieces of all nodes of the tree, one after the other in preorder. */
  ghost predicate IsArchive(ns: seq<Node>, s: Stream) { exists paths, pieces :: LaidOut(ns, s, paths, pieces) }

  function EntriesOf(n: Node): seq<Node> { if n.Header? && n.data.NoData? then n.entries else [] }

  /** The paths of the nodes from the `i`-th entry on, in preorder. */
  function PathsOf(ns: seq<Node>, i: nat): seq<Path>
    requires i <= |ns|
    decreases ns, |ns| - i
  {
    if i == |ns| then []
    else
      var below := if ns[i].Header? && ns[i].data.NoData? then PathsOf(ns[i].entries, 0) else [];
      Below(i, [[]] + below) + PathsOf(ns, i + 1)
  }

  function OwnPiece(n: Node): Stream {
    match n
    case Unfetchable => [Fault]
    case Header(header, data, _) =>
      match data
      case NoData => Bytes(header)
      case BrokenData => [Fault] + Bytes(header)
      case File(content) => Bytes(header) + content + Bytes(Zeros(Padding(CountBytes(content))))
  }

  function PiecesOf(ns: seq<Node>, i: nat): seq<Stream>
    requires i <= |ns|
    decreases ns, |ns| - i
  {
    if i == |ns| then []
    else
      var below := if ns[i].Header? && ns[i].data.NoData? then PiecesOf(ns[i].entries, 0) else [];
      ([OwnPiece(ns[i])] + below) + PiecesOf(ns, i + 1)
  }

  lemma ReadableAppend(s: Stream, e: Event)
    ensures Readable(s + [e]) == Readable(s) + if e.Byte? then 1 else 0
  {
    var front := set k | 0 <= k < |s| && s[k].Byte?;
    var all := set k | 0 <= k < |s + [e]| && (s + [e])[k].Byte?;
    assert all == front + if e.Byte? then {|s|} else {};
  }

  lemma {:induction false} CountIsReadable(s: Stream)
    ensures CountBytes(s) == Readable(s)
    decreases |s|
  {
    if s != [] {
      var n := |s| - 1;
      assert s == s[..n] + [s[n]];
      CountIsReadable(s[..n]);
      CountAppend(s[..n], [s[n]]);
      ReadableAppend(s[..n], s[n]);
    }
  }

  lemma PaddedIsPiece(header: seq<byte>, content: Stream, entries: seq<Node>, pad: nat)
    requires pad < 512 && (Readable(content) + pad) % 512 == 0
    ensures IsPiece(Header(header, File(content), entries), Bytes(header) + content + Bytes(Zeros(pad)))
  {
    var s, n := Bytes(header) + content + Bytes(Zeros(pad)), |header| + |content|;
    assert s[|header|..n] == content;
    assert forall k :: n <= k < |s| ==> s[k] == Bytes(Zeros(pad))[k - n];
  }

  lemma OwnIsPiece(n: Node)
    ensures IsPiece(n, OwnPiece(n))
  {
    if n.Header? && n.data.File? {
      var count := CountBytes(n.data.content);
      CountIsReadable(n.data.content);
      PaddingAligns(count);
      PaddedIsPiece(n.header, n.data.content, n.entries, Padding(count));
    }
  }

  lemma PathsUnfold(ns: seq<Node>, i: nat)
    requires i < |ns|
    ensures PathsOf(ns, i) == Below(i, [[]] + PathsOf(EntriesOf(ns[i]), 0)) + PathsOf(ns, i + 1)
  {}

  /** The paths that start at the `i`-th entry or a later one. */
  ghost function NodePaths(ns: seq<Node>, i: nat): iset<Path> { iset p | IsNodePath(ns, p) && i <= p[0] }

  lemma PathsBelow(ns: seq<Node>, i: nat, below: seq<Path>, p: Path)
    requires i < |ns| && (p != [] ==> (p[1..] in below <==> p[1..] in NodePaths(EntriesOf(ns[i]), 0)))
    ensures p in NodePaths(ns, i) <==> p in Below(i, [[]] + below) || p in NodePaths(ns, i + 1)
  {
    InBelow(i, [[]] + below, p);
  }

  lemma NoPaths(p: Path)
    ensures p !in PathsOf([], 0) && p !in NodePaths([], 0)
  {}

  lemma {:induction false} PathsExact(ns: seq<Node>, i: nat, p: Path)
    requires i <= |ns|
    ensures p in PathsOf(ns, i) <==> p in NodePaths(ns, i)
    decreases ns, |ns| - i
  {
    if i < |ns| {
      PathsExact(ns, i + 1, p);
      PathsUnfold(ns, i);
      if p == [] {
      } else if ns[i].Header? && ns[i].data.NoData? {
        PathsExact(ns[i].entries, 0, p[1..]);
      } else {
        NoPaths(p[1..]);
      }
      PathsBelow(ns, i, PathsOf(EntriesOf(ns[i]), 0), p);
    }
  }

  lemma PathsStart(ns: seq<Node>, i: nat)
    requires i <= |ns|
    ensures forall p :: p in PathsOf(ns, i) ==> p != [] && i <= p[0]
  {
    forall p | p in PathsOf(ns, i)
      ensures p != [] && i <= p[0]
    {
      PathsExact(ns, i, p);
    }
  }

  lemma {:induction false} PathsInOrder(ns: seq<Node>, i: nat)
    requires i <= |ns|
    ensures InOrder(PathsOf(ns, i))
    decreases ns, |ns| - i
  {
    if i < |ns| {
      if ns[i].Header? && ns[i].data.NoData? {
        PathsInOrder(ns[i].entries, 0);
      }
      PathsInOrder(ns, i + 1);
      PathsStart(EntriesOf(ns[i]), 0);
      PathsStart(ns, i + 1);
      PathsUnfold(ns, i);
      PreorderInOrder(i, PathsOf(EntriesOf(ns[i]), 0), PathsOf(ns, i + 1));
    }
  }

  /** A node and what is below it. */
  lemma FitsBelow(ns: seq<Node>, i: nat, paths: seq<Path>, pieces: seq<Stream>)
    requires i < |ns| && (paths, pieces) in Fittings(EntriesOf(ns[i]))
    ensures (Below(i, [[]] + paths), [OwnPiece(ns[i])] + pieces) in Fittings(ns)
  {
    assert Fits(EntriesOf(ns[i]), paths, pieces);
    var ps, all := Below(i, [[]] + paths), [OwnPiece(ns[i])] + pieces;
    forall k | 0 <= k < |ps|
      ensures IsNodePath(ns, ps[k]) && IsPiece(NodeAt(ns, ps[k]), all[k])
    {
      if k == 0 {
        OwnIsPiece(ns[i]);
      } else {
        assert ps[k][1..] == paths[k - 1];
      }
    }
    assert Fits(ns, ps, all);
  }

  lemma FitsAppend(ns: seq<Node>, ps: seq<Path>, a: seq<Stream>, qs: seq<Path>, b: seq<Stream>)
    requires (ps, a) in Fittings(ns) && (qs, b) in Fittings(ns)
    ensures (ps + qs, a + b) in Fittings(ns)
  {
    assert Fits(ns, ps, a) && Fits(ns, qs, b);
    assert Fits(ns, ps + qs, a + b);
  }

  lemma {:induction false} PiecesFit(ns: seq<Node>, i: nat)
    requires i <= |ns|
    ensures (PathsOf(ns, i), PiecesOf(ns, i)) in Fittings(ns)
    decreases ns, |ns| - i
  {
    if i < |ns| {
      var entries := EntriesOf(ns[i]);
      if ns[i].Header? && ns[i].data.NoData? {
        PiecesFit(ns[i].entries, 0);
      }
      FitsBelow(ns, i, PathsOf(entries, 0), PiecesOf(entries, 0));
      PiecesFit(ns, i + 1);
      FitsAppend(ns, Below(i, [[]] + PathsOf(entries, 0)), [OwnPiece(ns[i])] + PiecesOf(entries, 0),
                 PathsOf(ns, i + 1), PiecesOf(ns, i + 1));
    }
  }

  lemma {:induction false} JoinedAppend(a: seq<Stream>, b: seq<Stream>)
    ensures Joined(a + b) == Joined(a) + Joined(b)
    decreases |a|
  {
    if a == [] {
      assert a + b == b;
    } else {
      assert (a + b)[1..] == a[1..] + b;
      JoinedAppend(a[1..], b);
    }
  }

  lemma {:induction false} PiecesJoin(ns: seq<Node>, i: nat)
    requires i <= |ns|
    ensures Joined(PiecesOf(ns, i)) == Serialize(ns[i..])
    decreases ns, |ns| - i
  {
    if i < |ns| {
      var n, entries := ns[i], EntriesOf(ns[i]);
      if n.Header? && n.data.NoData? {
        PiecesJoin(n.entries, 0);
        assert n.entries[0..] == n.entries;
      }
      PiecesJoin(ns, i + 1);
      assert ns[i..][1..] == ns[i + 1..];
      JoinedAppend([OwnPiece(n)] + PiecesOf(entries, 0), PiecesOf(ns, i + 1));
      assert ([OwnPiece(n)] + PiecesOf(entries, 0))[1..] == PiecesOf(entries, 0);
      assert Emit(n) == OwnPiece(n) + Serialize(entries);
    }
  }

  /** The serialization is the archive: nothing of the tree is left out, repeated or out of place. */
  lemma SerializeIsArchive(ns: seq<Node>)
    ensures IsArchive(ns, Serialize(ns))
  {
    var paths, pieces := PathsOf(ns, 0), PiecesOf(ns, 0);
    PathsInOrder(ns, 0);
    forall p
      ensures p in paths <==> IsNodePath(ns, p)
    {
      PathsExact(ns, 0, p);
    }
    PiecesFit(ns, 0);
    PiecesJoin(ns, 0);
    assert ns[0..] == ns;
    assert LaidOut(ns, Serialize(ns), paths, pieces);
  }

  // ---------------------------------------------------------------- the whole archive

  /** `out` is all of `s`, or all up to its first failure. */
  ghost predicate CutShort(s: Stream, out: seq<byte>, ok: bool) {
    if ok then s == Bytes(out) else |out| < |s| && s[..|out|] == Bytes(out) && s[|out|] == Fault
  }

  lemma CutAtFault(s: Stream)
    ensures CutShort(s, Lead(s), Intact(s))
  {
    assert s == s[..|s|];
  }

  /**
   ExportTar, read to the end. The bytes are the serialization of the archive, whatever the buffer sizes; the first
   failure, if there is one, cuts them short at exactly that point. Node by node, the serialization is the archive.
   */
  method ExportTar(rootData: string, links: seq<Node>) returns (archive: Option<(seq<byte>, bool)>)
    ensures archive.Some? <==> rootData == "ipfs/tar"
    ensures archive.Some? ==> archive.value == (Lead(Serialize(links)), Intact(Serialize(links)))
    ensures archive.Some? && archive.value.1 ==> IsArchive(links, Bytes(archive.value.0))
    ensures archive.Some? ==> exists s :: IsArchive(links, s) && CutShort(s, archive.value.0, archive.value.1)
  {
    SerializeIsArchive(links);
    CutAtFault(Serialize(links));
    if rootData != "ipfs/tar" {
      return None;
    }
    var tr := new TarReader(links);
    FreshReader(links);
    var out, ok := Drain(tr);
    return Some((out, ok));
  }

  // ---------------------------------------------------------------- whole blocks

  predicate HeadersAligned(n: Node)
    decreases n
  {
    n.Header? ==> Aligned(|n.header|) && AllHeadersAligned(n.entries)
  }

  predicate AllHeadersAligned(ns: seq<Node>)
    decreases ns
  {
    ns != [] ==> HeadersAligned(ns[0]) && AllHeadersAligned(ns[1..])
  }

  predicate Aligned(n: nat) { n % BLOCK_SIZE == 0 }

  lemma AlignedSum(a: nat, b: nat)
    requires Aligned(a) && Aligned(b)
    ensures Aligned(a + b)
  {}

  lemma PaddingAligns(n: nat)
    ensures Aligned(n + Padding(n)) && Padding(n) < BLOCK_SIZE
  {}

  /** Archives of whole header blocks are whole blocks themselves, failures notwithstanding. */
  lemma {:induction false} SerializeAligned(ns: seq<Node>)
    requires AllHeadersAligned(ns)
    ensures Aligned(CountBytes(Serialize(ns)))
    decreases ns, 1
  {
    if ns != [] {
      EmitAligned(ns[0]);
      SerializeAligned(ns[1..]);
      CountAppend(Emit(ns[0]), Serialize(ns[1..]));
      AlignedSum(CountBytes(Emit(ns[0])), CountBytes(Serialize(ns[1..])));
    }
  }

  lemma {:induction false} EmitAligned(n: Node)
    requires HeadersAligned(n)
    ensures Aligned(CountBytes(Emit(n)))
    decreases n, 0
  {
    if n.Header? {
      var header := Bytes(n.header);
      CountOfBytes(n.header);
      match n.data
      case NoData =>
        SerializeAligned(n.entries);
        CountAppend(header, Serialize(n.entries));
        AlignedSum(|n.header|, CountBytes(Serialize(n.entries)));
      case BrokenData =>
        CountAppend([Fault], header);
      case File(content) =>
        var k := CountBytes(content);
        PaddingAligns(k);
        CountOfBytes(Zeros(Padding(k)));
        CountAppend(header, content);
        CountAppend(header + content, Bytes(Zeros(Padding(k))));
        AlignedSum(|n.header|, k + Padding(k));
    }
  }
}
