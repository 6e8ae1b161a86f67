/**
 The streaming tar exporter (tar/format.go).

 A tarReader is pulled with buffers of any size and hands out, piece by piece, the serialization of a tree of header
 nodes. Failures to fetch a node or to read a file are part of the stream: they are events between bytes.
 */
module Tar {
  import opened Common

  const BLOCK_SIZE: nat := 512

  /** What a consumer observes, in order: bytes, and reads that return an error. */
  datatype Event = Byte(b: byte) | Fault

  type Stream = seq<Event>

  /** The "data" link of a header node. A broken one cannot be looked up or opened. */
  datatype Data = NoData | BrokenData | File(content: Stream)

  /** What a link of the archive resolves to. A header node holds the header block and either a file or more entries. */
  datatype Node = Unfetchable | Header(header: seq<byte>, data: Data, entries: seq<Node>)

  // ---------------------------------------------------------------- the serialization

  function Bytes(bs: seq<byte>): (s: Stream)
    ensures |s| == |bs| && forall i :: 0 <= i < |bs| ==> s[i] == Byte(bs[i])
  {
    seq(|bs|, i requires 0 <= i < |bs| => Byte(bs[i]))
  }

  function CountBytes(s: Stream): nat {
    if s == [] then 0 else (if s[0].Byte? then 1 else 0) + CountBytes(s[1..])
  }

  function Padding(n: nat): nat { (BLOCK_SIZE - n % BLOCK_SIZE) % BLOCK_SIZE }

  function Zeros(n: nat): seq<byte> { seq(n, _ => 0) }

  /**
   Header, then the file padded to a whole number of blocks, or else the entries. Opening an entry that turns out broken
   reports the failure first and still delivers the header.
   */
  function Emit(n: Node): (s: Stream)
    decreases n
  {
    match n
    case Unfetchable => [Fault]
    case Header(header, data, entries) =>
      match data
      case NoData => Bytes(header) + Serialize(entries)
      case BrokenData => [Fault] + Bytes(header)
      case File(content) => Bytes(header) + content + Bytes(Zeros(Padding(CountBytes(content))))
  }

  function Serialize(ns: seq<Node>): (s: Stream)
    decreases ns
  {
    if ns == [] then [] else Emit(ns[0]) + Serialize(ns[1..])
  }

  /** An upper bound on the reads it takes to get past an entry. */
  function Work(n: Node): nat
    decreases n
  {
    match n
    case Unfetchable => 1
    case Header(header, data, entries) =>
      |header| + 2 + match data
                     case NoData => 1 + WorkAll(entries)
                     case BrokenData => 0
                     case File(content) => |content| + 1 + BLOCK_SIZE
  }

  function WorkAll(ns: seq<Node>): nat
    decreases ns
  {
    if ns == [] then 0 else Work(ns[0]) + WorkAll(ns[1..])
  }

  // ---------------------------------------------------------------- the code

  datatype Err = Nil | Eof | Failed

  /** The event a read's error amounts to. Running out is not one. */
  function Reported(err: Err): Stream { if err == Failed then [Fault] else [] }

  /** A read that put `out` into the buffer moved the stream from `before` to `after` without losing an event. */
  predicate Delivers(before: Stream, out: seq<byte>, err: Err, after: Stream) {
    before == Bytes(out) + Reported(err) + after
  }

  /** The bytes at the front of the stream, up to the next failure. */
  function Lead(s: Stream): (bs: seq<byte>)
    ensures |bs| <= |s| && s[..|bs|] == Bytes(bs) && (|bs| < |s| ==> s[|bs|].Fault?)
  {
    if s != [] && s[0].Byte? then [s[0].b] + Lead(s[1..]) else []
  }

  /** Go's copy. */
  method Copy(b: array<byte>, src: seq<byte>) returns (k: nat)
    modifies b
    ensures k == if |src| < b.Length then |src| else b.Length
    ensures b[..k] == src[..k]
  {
    k := if |src| < b.Length then |src| else b.Length;
    for i := 0 to k
      invariant b[..i] == src[..i]
    {
      b[i] := src[i];
    }
  }

  lemma SplitBytes(s: Stream, bs: seq<byte>, k: nat)
    requires k <= |bs| <= |s| && s[..|bs|] == Bytes(bs)
    ensures s == Bytes(bs[..k]) + s[k..]
  {
    assert s[..k] == s[..|bs|][..k] == Bytes(bs[..k]);
  }

  /**
   One read of the underlying file reader, which keeps to the io.Reader contract: a chunk of any size that fits, and EOF
   either with the last bytes or after them.
   */
  method ReadFile(rest: Stream, size: nat) returns (out: seq<byte>, err: Err, rest': Stream)
    ensures |out| <= size && Delivers(rest, out, err, rest')
    ensures err == Eof ==> rest' == []
    ensures err == Nil && size > 0 ==> out != []
  {
    var lead := Lead(rest);
    var most: nat :| most <= size && most <= |lead| && (size > 0 && lead != [] ==> most > 0);
    out, rest' := lead[..most], rest[most..];
    SplitBytes(rest, lead, most);
    var now: bool := *;
    err := Nil;
    if now || (most == 0 && size > 0) {
      if rest' == [] {
        err := Eof;
      } else if rest'[0].Fault? {
        err, rest' := Failed, rest'[1..];
      }
    }
  }

  class CountReader {
    var rest: Stream
    var n: nat

    constructor (content: Stream)
      ensures rest == content && n == 0
    {
      rest, n := content, 0;
    }

    method Read(b: array<byte>) returns (k: nat, err: Err)
      modifies this, b
      ensures k <= b.Length && Delivers(old(rest), b[..k], err, rest)
      ensures n == old(n) + k
      ensures err == Eof ==> rest == []
      ensures err == Nil && b.Length > 0 ==> k > 0
    {
      var out;
      out, err, rest := ReadFile(rest, b.Length);
      k := Copy(b, out);
      assert b[..k] == out;
      n := n + k;
    }
  }

  /** What is left of an open file: the rest of its data, and the padding that the whole of it will need. */
  function FileTail(rest: Stream, n: nat): Stream {
    rest + Bytes(Zeros(Padding(n + CountBytes(rest))))
  }

  lemma {:induction false} CountAppend(a: Stream, b: Stream)
    ensures CountBytes(a + b) == CountBytes(a) + CountBytes(b)
    decreases |a|
  {
    if a == [] {
      assert a + b == b;
    } else {
      assert (a + b)[1..] == a[1..] + b;
      CountAppend(a[1..], b);
    }
  }

  lemma {:induction false} CountOfBytes(bs: seq<byte>)
    ensures CountBytes(Bytes(bs)) == |bs|
    decreases |bs|
  {
    if bs != [] {
      assert Bytes(bs)[1..] == Bytes(bs[1..]);
      CountOfBytes(bs[1..]);
    }
  }

  lemma FileTailDelivers(rest: Stream, n: nat, out: seq<byte>, err: Err, rest': Stream)
    requires Delivers(rest, out, err, rest')
    ensures Delivers(FileTail(rest, n), out, err, FileTail(rest', n + |out|))
    ensures rest' == [] ==> FileTail(rest', n + |out|) == Bytes(Zeros(Padding(n + |out|)))
  {
    DeliveredCount(rest, out, err, rest');
    DeliversMore(rest, out, err, rest', Bytes(Zeros(Padding(n + CountBytes(rest)))));
    if rest' == [] {
      RegroupTail([], [], Bytes(Zeros(Padding(n + |out|))));
    }
  }

  lemma DeliveredCount(rest: Stream, out: seq<byte>, err: Err, rest': Stream)
    requires Delivers(rest, out, err, rest')
    ensures CountBytes(rest) == |out| + CountBytes(rest')
  {
    CountAppend(Bytes(out) + Reported(err), rest');
    CountAppend(Bytes(out), Reported(err));
    CountOfBytes(out);
  }

  lemma RegroupTail(a: Stream, b: Stream, c: Stream)
    ensures (a + b) + c == a + (b + c) && [] + c == c
  {}

  lemma DeliversMore(before: Stream, out: seq<byte>, err: Err, after: Stream, more: Stream)
    requires Delivers(before, out, err, after)
    ensures Delivers(before + more, out, err, after + more)
  {
    RegroupTail(Bytes(out) + Reported(err), after, more);
  }

  // ---------------------------------------------------------------- the state of a reader, as a value

  /** What comes between the header and the next link: a nested reader, an open file, or padding. */
  datatype Body = Child(reader: View) | Open(rest: Stream, n: nat) | Pad(n: nat)

  datatype View = View(hdrBuf: Option<seq<byte>>, body: Body, links: seq<Node>)

  function RemainingBody(b: Body): (s: Stream) {
    match b
    case Child(v) => Remaining(v)
    case Open(rest, n) => FileTail(rest, n)
    case Pad(n) => Bytes(Zeros(n))
  }

  /** Everything a reader has still to hand out. */
  function Remaining(v: View): (s: Stream) {
    (if v.hdrBuf.Some? then Bytes(v.hdrBuf.value) else []) + (RemainingBody(v.body) + Serialize(v.links))
  }

  function ToilBody(b: Body): nat {
    match b
    case Child(v) => Toil(v) + 1
    case Open(rest, n) => |rest| + 1 + BLOCK_SIZE
    case Pad(n) => n
  }

  /** A bound on the reads still to come. */
  function Toil(v: View): nat {
    (if v.hdrBuf.Some? then |v.hdrBuf.value| + 1 else 0) + ToilBody(v.body) + WorkAll(v.links)
  }

  predicate AtEnd(v: View) { v.hdrBuf.None? && v.body == Pad(0) && v.links == [] }

  /**
   One read: nothing is lost or invented, a read into a non-empty buffer gets closer to the end, and EOF is reported at
   the end only, where it stays.
   */
  predicate Reads(v: View, out: seq<byte>, err: Err, v': View, size: nat) {
    && Delivers(Remaining(v), out, err, Remaining(v'))
    && (err == Eof <==> AtEnd(v))
    && (err == Eof ==> out == [] && v' == v)
    && (size > 0 && err != Eof ==> Toil(v') < Toil(v))
  }

  lemma HeaderReads(v: View, k: nat, size: nat)
    requires v.hdrBuf.Some?
    ensures v.hdrBuf.value == [] ==> Reads(v, [], Nil, v.(hdrBuf := None), size)
    ensures k <= |v.hdrBuf.value| && (size > 0 ==> k > 0) ==>
              Reads(v, v.hdrBuf.value[..k], Nil, v.(hdrBuf := Some(v.hdrBuf.value[k..])), size)
  {
    var h := v.hdrBuf.value;
    if k <= |h| {
      assert Bytes(h) == Bytes(h[..k]) + Bytes(h[k..]);
    }
  }

  lemma BodyDelivers(v: View, out: seq<byte>, err: Err, body: Body)
    requires v.hdrBuf.None? && Delivers(RemainingBody(v.body), out, err, RemainingBody(body))
    ensures Delivers(Remaining(v), out, err, Remaining(v.(body := body)))
  {
    DeliversMore(RemainingBody(v.body), out, err, RemainingBody(body), Serialize(v.links));
    var v' := v.(body := body);
    assert Remaining(v) == RemainingBody(v.body) + Serialize(v.links);
    assert Remaining(v') == RemainingBody(body) + Serialize(v.links);
  }

  lemma ChildReads(v: View, out: seq<byte>, err: Err, child: View, size: nat)
    requires v.hdrBuf.None? && v.body.Child? && Reads(v.body.reader, out, err, child, size)
    ensures err == Eof ==> Reads(v, out, Nil, v.(body := Pad(0)), size)
    ensures err != Eof ==> Reads(v, out, err, v.(body := Child(child)), size)
  {
    BodyDelivers(v, out, if err == Eof then Nil else err, if err == Eof then Pad(0) else Child(child));
  }

  lemma FileReads(v: View, out: seq<byte>, err: Err, rest: Stream, size: nat)
    requires v.hdrBuf.None? && v.body.Open? && Delivers(v.body.rest, out, err, rest)
    requires (err == Eof ==> rest == []) && (err == Nil && size > 0 ==> out != [])
    ensures err == Eof ==> Reads(v, out, Nil, v.(body := Pad(Padding(v.body.n + |out|))), size)
    ensures err != Eof ==> Reads(v, out, err, v.(body := Open(rest, v.body.n + |out|)), size)
  {
    var n := v.body.n + |out|;
    FileTailDelivers(v.body.rest, v.body.n, out, err, rest);
    BodyDelivers(v, out, if err == Eof then Nil else err, if err == Eof then Pad(Padding(n)) else Open(rest, n));
  }

  lemma PadReads(v: View, k: nat, size: nat)
    requires v.hdrBuf.None? && v.body.Pad? && 0 < v.body.n && k <= v.body.n && (size > 0 ==> k > 0)
    ensures Reads(v, Zeros(v.body.n)[..k], Nil, v.(body := Pad(v.body.n - k)), size)
  {
    var n := v.body.n;
    assert Bytes(Zeros(n)) == Bytes(Zeros(n)[..k]) + Bytes(Zeros(n - k));
    BodyDelivers(v, Zeros(n)[..k], Nil, Pad(n - k));
  }

  /** Opening an entry: what a broken one reports, the header it has, and what follows the header. */
  function Opened(node: Node): (r: (Err, Option<seq<byte>>, Body)) {
    match node
    case Unfetchable => (Failed, None, Pad(0))
    case Header(header, data, entries) =>
      match data
      case BrokenData => (Failed, Some(header), Pad(0))
      case File(content) => (Nil, Some(header), Open(content, 0))
      case NoData => (Nil, Some(header), if entries != [] then Child(View(None, Pad(0), entries)) else Pad(0))
  }

  lemma FreshReader(links: seq<Node>)
    ensures Remaining(View(None, Pad(0), links)) == Serialize(links)
    ensures Toil(View(None, Pad(0), links)) == WorkAll(links)
  {}

  /** An opened entry has all of the entry's serialization ahead of it, and less work than before. */
  lemma OpenedHoldsEntry(node: Node)
    ensures var (err, hdr, body) := Opened(node);
            && Emit(node) == Reported(err) + ((if hdr.Some? then Bytes(hdr.value) else []) + RemainingBody(body))
            && Work(node) > (if hdr.Some? then |hdr.value| + 1 else 0) + ToilBody(body)
  {
    if node.Header? && node.data.NoData? {
      FreshReader(node.entries);
    }
  }

  lemma OpeningDelivers(v: View)
    requires v.hdrBuf.None? && v.body == Pad(0) && v.links != []
    ensures var (err, hdr, body) := Opened(v.links[0]);
            Delivers(Remaining(v), [], err, Remaining(View(hdr, body, v.links[1..])))
  {
    var (err, hdr, body) := Opened(v.links[0]);
    OpenedHoldsEntry(v.links[0]);
    var rest, header := Serialize(v.links[1..]), if hdr.Some? then Bytes(hdr.value) else [];
    assert Remaining(v) == Emit(v.links[0]) + rest;
    assert Remaining(View(hdr, body, v.links[1..])) == header + (RemainingBody(body) + rest);
    Regroup(Reported(err), header, RemainingBody(body), rest);
    assert Bytes([]) == [];
  }

  lemma OpeningReads(v: View, size: nat)
    requires v.hdrBuf.None? && v.body == Pad(0) && v.links != []
    ensures var (err, hdr, body) := Opened(v.links[0]); Reads(v, [], err, View(hdr, body, v.links[1..]), size)
  {
    OpeningDelivers(v);
    OpenedHoldsEntry(v.links[0]);
    assert Toil(v) == Work(v.links[0]) + WorkAll(v.links[1..]);
  }

  lemma Regroup(a: Stream, b: Stream, c: Stream, d: Stream)
    ensures (a + (b + c)) + d == [] + a + (b + (c + d))
  {}

  lemma ReadsTwice(v: View, mid: View, out: seq<byte>, err: Err, v': View, size: nat)
    requires Reads(v, [], Nil, mid, 1) && Reads(mid, out, err, v', size) && err != Eof
    ensures Reads(v, out, err, v', size)
  {
    assert Remaining(v) == Remaining(mid);
  }

  // ---------------------------------------------------------------- the reader

  class TarReader {
    var links: seq<Node>
    var childRead: TarReader?
    var hdrBuf: Option<seq<byte>>
    var fileRead: CountReader?
    var pad: nat
    ghost var view: View
    ghost var Repr: set<object>

    constructor (links: seq<Node>)
      ensures Valid() && fresh(Repr) && view == View(None, Pad(0), links)
    {
      this.links, childRead, hdrBuf, fileRead, pad := links, null, None, null, 0;
      view, Repr := View(None, Pad(0), links), {this};
    }

    ghost predicate Valid()
      reads this, Repr
      ensures Valid() ==> this in Repr
    {
      && this in Repr
      && view.hdrBuf == hdrBuf && view.links == links
      && (childRead != null ==>
            && childRead in Repr && childRead.Repr <= Repr && this !in childRead.Repr && childRead.Valid()
            && fileRead == null && pad == 0 && view.body == Child(childRead.view))
      && (fileRead != null ==>
            fileRead in Repr && childRead == null && pad == 0 && view.body == Open(fileRead.rest, fileRead.n))
      && (childRead == null && fileRead == null ==> view.body == Pad(pad))
      && pad < BLOCK_SIZE
    }

    /** The header, while there is one. */
    method ReadHeader(b: array<byte>) returns (n: nat)
      requires Valid() && b !in Repr && hdrBuf.Some?
      modifies this, b
      ensures Valid() && Repr == old(Repr)
      ensures n <= b.Length && Reads(old(view), b[..n], Nil, view, b.Length)
    {
      if hdrBuf.value == [] {
        HeaderReads(view, 0, b.Length);
        hdrBuf := None;
        n := 0;
        assert b[..n] == [];
      } else {
        n := Copy(b, hdrBuf.value);
        HeaderReads(view, n, b.Length);
        hdrBuf := Some(hdrBuf.value[n..]);
      }
      view := view.(hdrBuf := hdrBuf);
    }

    /** File data, then the padding that brings it to a whole number of blocks. */
    method ReadData(b: array<byte>) returns (n: nat, err: Err)
      requires Valid() && b !in Repr && hdrBuf.None? && childRead == null && (fileRead != null || pad > 0)
      modifies this, fileRead, b
      ensures Valid() && Repr == old(Repr)
      ensures n <= b.Length && err != Eof && Reads(old(view), b[..n], err, view, b.Length)
    {
      if fileRead != null {
        n, err := fileRead.Read(b);
        FileReads(view, b[..n], err, fileRead.rest, b.Length);
        if err == Eof {
          var nr := fileRead.n;
          pad := (BLOCK_SIZE - nr % BLOCK_SIZE) % BLOCK_SIZE;
          fileRead := null;
          view := view.(body := Pad(pad));
          return n, Nil;
        }
        view := view.(body := Open(fileRead.rest, fileRead.n));
        return n, err;
      }
      n := Copy(b, Zeros(pad));
      PadReads(view, n, b.Length);
      pad := pad - n;
      view := view.(body := Pad(pad));
      return n, Nil;
    }

    /** Takes the next link and opens what it leads to. */
    method OpenNext() returns (err: Err)
      requires Valid() && hdrBuf.None? && childRead == null && fileRead == null && pad == 0 && links != []
      modifies this
      ensures Valid() && fresh(Repr - old(Repr))
      ensures var (e, hdr, body) := Opened(old(links)[0]); err == e && view == View(hdr, body, old(links)[1..])
      ensures err == Nil ==> hdrBuf.Some?
      ensures old(links)[0].Header? ==>
                var next := old(links)[0];
                && hdrBuf == Some(next.header) && (err == Failed <==> next.data.BrokenData?)
                && (childRead != null <==> next.data.NoData? && next.entries != [])
                && (childRead != null ==> childRead.links == next.entries)
                && (fileRead != null <==> next.data.File?)
                && (fileRead != null ==> fileRead.rest == next.data.content && fileRead.n == 0)
    {
      var next := links[0];
      links := links[1..];
      view := View(Opened(next).1, Opened(next).2, links);
      if next.Unfetchable? {
        return Failed;
      }
      hdrBuf := Some(next.header);
      if next.data.BrokenData? {
        return Failed;
      }
      if next.data.File? {
        fileRead := new CountReader(next.data.content);
        Repr := Repr + {fileRead};
      } else if |next.entries| > 0 {
        childRead := new TarReader(next.entries);
        Repr := Repr + childRead.Repr;
      }
      return Nil;
    }

    method ReadChild(b: array<byte>) returns (n: nat, err: Err)
      requires Valid() && b !in Repr && hdrBuf.None? && childRead != null
      modifies Repr, b
      ensures Valid() && fresh(Repr - old(Repr)) && b !in Repr
      ensures n <= b.Length && err != Eof && Reads(old(view), b[..n], err, view, b.Length)
      decreases Toil(view), 0
    {
      assert Toil(view) >= ToilBody(view.body) == Toil(childRead.view) + 1;
      n, err := childRead.Read(b);
      ChildReads(view, b[..n], err, childRead.view, b.Length);
      if err == Eof {
        childRead := null;
        view := view.(body := Pad(0));
        return n, Nil;
      }
      view, Repr := view.(body := Child(childRead.view)), Repr + childRead.Repr;
    }

    method Read(b: array<byte>) returns (n: nat, err: Err)
      requires Valid() && b !in Repr
      modifies Repr, b
      ensures Valid() && fresh(Repr - old(Repr)) && b !in Repr
      ensures n <= b.Length && Reads(old(view), b[..n], err, view, b.Length)
      ensures old(hdrBuf).Some? ==> err == Nil
      decreases Toil(view), 1
    {
      if hdrBuf.Some? {
        n := ReadHeader(b);
        return n, Nil;
      }
      if childRead != null {
        n, err := ReadChild(b);
        return;
      }
      if fileRead != null || pad > 0 {
        n, err := ReadData(b);
        return;
      }
      if |links| == 0 {
        assert b[..0] == [];
        return 0, Eof;
      }
      OpeningReads(view, 1);
      err := OpenNext();
      if err != Nil {
        assert b[..0] == [];
        return 0, err;
      }
      ghost var mid := view;
      n, err := Read(b);
      ReadsTwice(old(view), mid, b[..n], err, view, b.Length);
    }
  }

  // ---------------------------------------------------------------- reading to the end

  predicate Intact(s: Stream) { forall i :: 0 <= i < |s| ==> s[i].Byte? }

  lemma {:induction false} LeadOfBytes(out: seq<byte>, more: Stream)
    requires more == [] || more[0] == Fault
    ensures Lead(Bytes(out) + more) == out
    decreases |out|
  {
    var s := Bytes(out) + more;
    if out != [] {
      assert s[1..] == Bytes(out[1..]) + more;
      LeadOfBytes(out[1..], more);
    }
  }

  lemma LeadStopsAtFault(out: seq<byte>, more: Stream)
    ensures Lead(Bytes(out) + [Fault] + more) == out && !Intact(Bytes(out) + [Fault] + more)
    ensures Lead(Bytes(out)) == out && Intact(Bytes(out))
  {
    var s := Bytes(out) + [Fault] + more;
    assert s[|out|] == Fault;
    LeadOfBytes(out, [Fault] + more);
    LeadOfBytes(out, []);
    RegroupTail(Bytes(out), [Fault], more);
    assert Bytes(out) + [] == Bytes(out);
  }

  lemma BytesAppend(a: seq<byte>, b: seq<byte>)
    ensures Bytes(a + b) == Bytes(a) + Bytes(b)
  {}

  lemma RegroupChunk(a: Stream, b: Stream, c: Stream, d: Stream)
    ensures a + (b + c + d) == (a + b) + c + d
  {}

  lemma NothingReported(a: Stream, b: Stream)
    ensures a + [] + b == a + b && a + [] + [] == a
  {}

  lemma DrainedMore(whole: Stream, out: seq<byte>, before: Stream, chunk: seq<byte>, err: Err, after: Stream)
    requires whole == Bytes(out) + before && Delivers(before, chunk, err, after)
    requires err == Eof ==> before == []
    ensures err == Nil ==> whole == Bytes(out + chunk) + after
    ensures err != Nil ==> Lead(whole) == out + chunk && Intact(whole) == (err == Eof)
  {
    BytesAppend(out, chunk);
    LeadStopsAtFault(out + chunk, after);
    RegroupChunk(Bytes(out), Bytes(chunk), Reported(err), after);
    if err != Failed {
      NothingReported(Bytes(out + chunk), after);
    }
  }

  /** Pulls a reader dry with buffers of arbitrary non-zero sizes, stopping at the first error as io.Copy does. */
  method Drain(tr: TarReader) returns (out: seq<byte>, ok: bool)
    requires tr.Valid()
    modifies tr.Repr
    ensures out == Lead(Remaining(old(tr.view))) && ok == Intact(Remaining(old(tr.view)))
  {
    ghost var whole := Remaining(tr.view);
    out := [];
    while true
      invariant tr.Valid() && fresh(tr.Repr - old(tr.Repr))
      invariant whole == Bytes(out) + Remaining(tr.view)
      decreases Toil(tr.view)
    {
      ghost var before := Remaining(tr.view);
      var size: nat :| size > 0;
      var b := new byte[size];
      var n, err := tr.Read(b);
      DrainedMore(whole, out, before, b[..n], err, Remaining(tr.view));
      out := out + b[..n];
      if err == Eof {
        return out, true;
      }
      if err == Failed {
        return out, false;
      }
    }
  }
}
