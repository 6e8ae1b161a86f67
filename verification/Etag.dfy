/**
 The If-None-Match scanner of the gateway (core/corehttp/gateway_handler.go): reads a list of entity-tags in the syntax
 of sections 2.3 and 3.2 of RFC 7232 and compares them weakly, as section 2.3.2 has it.
 */
module Etag {
  import opened Common

  type Text = seq<byte>

  const QUOTE: byte := 0x22
  const COMMA: byte := 0x2C
  const STAR: byte := 0x2A
  const DOT: byte := 0x2E
  const WEAK: Text := [0x57, 0x2F]   // W/

  /** The white space that textproto.TrimString removes. */
  predicate Blank(b: byte) { b == 0x20 || b == 0x09 || b == 0x0A || b == 0x0D }

  /** A character allowed inside an entity-tag. */
  predicate EtagChar(b: byte) { b == 0x21 || 0x23 <= b <= 0x7E || 0x80 <= b }

  function TrimLeft(s: Text): (r: Text)
    ensures |r| <= |s|
  {
    if s != [] && Blank(s[0]) then TrimLeft(s[1..]) else s
  }

  function TrimRight(s: Text): (r: Text)
    ensures |r| <= |s|
  {
    if s != [] && Blank(s[|s| - 1]) then TrimRight(s[..|s| - 1]) else s
  }

  function Trim(s: Text): (r: Text)
    ensures |r| <= |s|
  {
    TrimRight(TrimLeft(s))
  }

  function TrimPrefix(s: Text): Text { if WEAK <= s then s[2..] else s }

  predicate WeakMatch(a: Text, b: Text) { TrimPrefix(a) == TrimPrefix(b) }

  // ---------------------------------------------------------------- scanning

  /** The first position from `i` on that does not hold an allowed character. */
  function EtagEnd(s: Text, i: nat): (j: nat)
    requires i <= |s|
    ensures i <= j <= |s| && (forall k :: i <= k < j ==> EtagChar(s[k])) && (j < |s| ==> !EtagChar(s[j]))
    decreases |s| - i
  {
    if i < |s| && EtagChar(s[i]) then EtagEnd(s, i + 1) else i
  }

  /** The entity-tag at the front of `s`, and the rest; two empty texts if there is none. */
  function Scan(s0: Text): (r: (Text, Text))
    ensures r.0 != [] ==> |r.0| >= 2 && |r.1| + |r.0| <= |s0|
  {
    var s := Trim(s0);
    var start := if WEAK <= s then 2 else 0;
    if |s| - start < 2 || s[start] != QUOTE then ([], [])
    else
      var j := EtagEnd(s, start + 1);
      if j < |s| && s[j] == QUOTE then (s[..j + 1], s[j + 1..]) else ([], [])
  }

  /** scanETag. */
  method ScanETag(s0: Text) returns (etag: Text, remain: Text)
    ensures (etag, remain) == Scan(s0)
  {
    var s := Trim(s0);
    var start := 0;
    if WEAK <= s {
      start := 2;
    }
    if |s[start..]| < 2 || s[start] != QUOTE {
      return [], [];
    }
    for i := start + 1 to |s|
      invariant EtagEnd(s, start + 1) == EtagEnd(s, i)
    {
      var c := s[i];
      if c == 0x21 || (0x23 <= c && c <= 0x7E) || c >= 0x80 {
      } else if c == QUOTE {
        return s[..i + 1], s[i + 1..];
      } else {
        return [], [];
      }
    }
    return [], [];
  }

  /** What etagMatch computes, as a recursion over what is left of the header. */
  function Matches(buf0: Text, cidEtag: Text, dirEtag: Text): bool
    decreases |buf0|
  {
    var buf := Trim(buf0);
    if buf == [] then false
    else if buf[0] == COMMA then Matches(buf[1..], cidEtag, dirEtag)
    else if buf[0] == STAR then true
    else
      var (etag, remain) := Scan(buf);
      if etag == [] then false
      else WeakMatch(etag, cidEtag) || WeakMatch(etag, dirEtag) || Matches(remain, cidEtag, dirEtag)
  }

  method EtagMatch(ifNoneMatch: Text, cidEtag: Text, dirEtag: Text) returns (m: bool)
    ensures m == Matches(ifNoneMatch, cidEtag, dirEtag)
  {
    var buf := ifNoneMatch;
    while true
      invariant Matches(ifNoneMatch, cidEtag, dirEtag) == Matches(buf, cidEtag, dirEtag)
      decreases |buf|
    {
      var trimmed := Trim(buf);
      if |trimmed| == 0 {
        break;
      }
      if trimmed[0] == COMMA {
        buf := trimmed[1..];
        continue;
      }
      if trimmed[0] == STAR {
        return true;
      }
      var etag, remain := ScanETag(trimmed);
      if etag == [] {
        break;
      }
      if WeakMatch(etag, cidEtag) || WeakMatch(etag, dirEtag) {
        return true;
      }
      buf := remain;
    }
    return false;
  }

  // ---------------------------------------------------------------- the grammar

  datatype Item = Any | Tag(weak: bool, opaqueTag: Text)

  /** Section 2.3 of RFC 7232: anything but controls, the blank, the quote and DEL. */
  predicate Legal(t: Text) { forall i :: 0 <= i < |t| ==> t[i] > 0x20 && t[i] != 0x22 && t[i] != 0x7F }

  predicate WellFormed(item: Item) { item.Tag? ==> Legal(item.opaqueTag) }

  predicate IsTag(item: Item) { item.Tag? && Legal(item.opaqueTag) }

  function Render(item: Item): Text {
    if item.Any? then [0x2A] else (if item.weak then [0x57, 0x2F] else []) + [0x22] + item.opaqueTag + [0x22]
  }

  /** Commas, blanks, tabs and line ends. */
  predicate Separates(b: byte) { b == 0x2C || b == 0x20 || b == 0x09 || b == 0x0A || b == 0x0D }

  predicate Separator(t: Text) { forall i :: 0 <= i < |t| ==> Separates(t[i]) }

  /** Text that no list goes on with: it starts with no separator, no "*" and no well-formed tag. */
  ghost predicate Junk(t: Text) {
    t != [] ==> !Separates(t[0]) && t[0] != 0x2A && forall item: Item :: IsTag(item) ==> !(Render(item) <= t)
  }

  /**
   A list: separators around and between the items, any number of commas and blanks in each. The text after the first
   thing that is no item is `junk`.
   */
  datatype Field = End(sep: Text, junk: Text) | More(sep: Text, item: Item, rest: Field)

  ghost predicate IsList(f: Field) {
    Separator(f.sep) && if f.More? then WellFormed(f.item) && IsList(f.rest) else Junk(f.junk)
  }

  function Header(f: Field): Text {
    match f
    case End(sep, junk) => sep + junk
    case More(sep, item, rest) => sep + (Render(item) + Header(rest))
  }

  /** The list holds a "*" or a tag weakly equal to one of the two. */
  predicate Wants(f: Field, cidEtag: Text, dirEtag: Text) {
    f.More? &&
    (|| f.item.Any? || WeakMatch(Render(f.item), cidEtag) || WeakMatch(Render(f.item), dirEtag)
     || Wants(f.rest, cidEtag, dirEtag))
  }

  // ---------------------------------------------------------------- trimming

  lemma {:induction false} TrimRightAppend(a: Text, b: Text)
    requires a != [] && !Blank(a[|a| - 1])
    ensures TrimRight(a + b) == a + TrimRight(b)
    decreases |b|
  {
    var s := a + b;
    if b == [] {
      assert s == a;
    } else if Blank(b[|b| - 1]) {
      assert s[..|s| - 1] == a + b[..|b| - 1];
      TrimRightAppend(a, b[..|b| - 1]);
    }
  }

  lemma {:induction false} TrimRightStops(s: Text)
    ensures TrimRight(s) == [] || !Blank(TrimRight(s)[|TrimRight(s)| - 1])
    ensures TrimRight(TrimRight(s)) == TrimRight(s)
    decreases |s|
  {
    if s != [] && Blank(s[|s| - 1]) {
      TrimRightStops(s[..|s| - 1]);
    }
  }

  /** Trimming on the right first makes no difference. */
  lemma {:induction false} TrimAfterTrimRight(s: Text)
    ensures Trim(TrimRight(s)) == Trim(s)
    decreases |s|
  {
    if s != [] && Blank(s[|s| - 1]) {
      var t := s[..|s| - 1];
      TrimAfterTrimRight(t);
      TrimLeftPrefix(t, s[|s| - 1]);
      assert s == t + [s[|s| - 1]];
    }
  }

  /** A blank at the end does not survive. */
  lemma {:induction false} TrimLeftPrefix(t: Text, b: byte)
    requires Blank(b)
    ensures Trim(t + [b]) == Trim(t)
    decreases |t|
  {
    var s := t + [b];
    if t == [] {
      assert s[1..] == [];
    } else if Blank(t[0]) {
      assert s[1..] == t[1..] + [b];
      TrimLeftPrefix(t[1..], b);
    } else {
      assert s[..|s| - 1] == t;
    }
  }

  lemma MatchesTrimmed(s: Text, cidEtag: Text, dirEtag: Text)
    ensures Matches(TrimRight(s), cidEtag, dirEtag) == Matches(s, cidEtag, dirEtag)
  {
    TrimAfterTrimRight(s);
  }

  // ---------------------------------------------------------------- lists are read as they are written

  lemma {:induction false} SkipsSeparator(sep: Text, t: Text, cidEtag: Text, dirEtag: Text)
    requires Separator(sep)
    ensures Matches(sep + t, cidEtag, dirEtag) == Matches(t, cidEtag, dirEtag)
    decreases |sep|
  {
    var s := sep + t;
    if sep == [] {
      assert s == t;
    } else {
      assert s[1..] == sep[1..] + t;
      SkipsSeparator(sep[1..], t, cidEtag, dirEtag);
      if !Blank(sep[0]) {
        assert s == [COMMA] + s[1..];
        TrimRightAppend([COMMA], s[1..]);
        assert Trim(s)[1..] == TrimRight(s[1..]);
        MatchesTrimmed(s[1..], cidEtag, dirEtag);
      }
    }
  }

  lemma TagStart(weak: bool, opaqueTag: Text, rest: Text)
    ensures var s := Render(Tag(weak, opaqueTag)) + rest;
            var start := if weak then 2 else 0;
            && |s| - start >= 2 && (WEAK <= s <==> weak) && s[start] == QUOTE
            && !Blank(s[0]) && s[0] != COMMA && s[0] != STAR
  {
    var s := Render(Tag(weak, opaqueTag)) + rest;
    if weak {
      assert s[0] == WEAK[0] && s[1] == WEAK[1] && s[2] == QUOTE;
    } else {
      assert s[0] == QUOTE;
    }
  }

  lemma {:induction false} EtagEndAt(s: Text, i: nat, j: nat)
    requires i <= j < |s| && (forall k :: i <= k < j ==> EtagChar(s[k])) && !EtagChar(s[j])
    ensures EtagEnd(s, i) == j
    decreases j - i
  {
    if i < j {
      EtagEndAt(s, i + 1, j);
    }
  }

  lemma ScansTag(item: Item, rest: Text)
    requires item.Tag? && WellFormed(item)
    ensures Trim(Render(item) + rest) == Render(item) + TrimRight(rest)
    ensures Scan(Render(item) + TrimRight(rest)) == (Render(item), TrimRight(rest))
  {
    var tag, rest' := Render(item), TrimRight(rest);
    TagStart(item.weak, item.opaqueTag, rest);
    TagStart(item.weak, item.opaqueTag, rest');
    TrimRightAppend(tag, rest);
    TrimRightAppend(tag, rest');
    TrimRightStops(rest);
    TagEndsAt(item, rest');
    assert (tag + rest')[..|tag|] == tag && (tag + rest')[|tag|..] == rest';
  }

  lemma TagEndsAt(item: Item, rest: Text)
    requires item.Tag? && WellFormed(item)
    ensures var s, start := Render(item) + rest, if item.weak then 2 else 0;
            EtagEnd(s, start + 1) == |Render(item)| - 1 && s[|Render(item)| - 1] == QUOTE
  {
    var s, start := Render(item) + rest, if item.weak then 2 else 0;
    forall k | start + 1 <= k < |Render(item)| - 1
      ensures EtagChar(s[k])
    {
      assert s[k] == item.opaqueTag[k - start - 1];
    }
    EtagEndAt(s, start + 1, |Render(item)| - 1);
  }

  lemma QuotedAt(t: Text, start: nat, j: nat)
    requires start < j < |t| && t[start] == QUOTE == t[j]
    ensures t == t[..j + 1] + t[j + 1..]
    ensures t[..j + 1] == t[..start] + [QUOTE] + t[start + 1..j] + [QUOTE]
  {}

  /** Whatever is scanned off the front is a well-formed tag. */
  lemma ScannedIsTag(t: Text) returns (item: Item)
    requires Trim(t) == t && Scan(t).0 != []
    ensures IsTag(item) && Render(item) == Scan(t).0 && t == Render(item) + Scan(t).1
  {
    var start := if WEAK <= t then 2 else 0;
    var j := EtagEnd(t, start + 1);
    item := Tag(WEAK <= t, t[start + 1..j]);
    QuotedAt(t, start, j);
    assert t[..start] == if item.weak then WEAK else [];
  }

  lemma {:induction false} TrimRightIsPrefix(t: Text)
    ensures TrimRight(t) <= t
    decreases |t|
  {
    if t != [] && Blank(t[|t| - 1]) {
      TrimRightIsPrefix(t[..|t| - 1]);
    }
  }

  lemma JunkTrimmed(t: Text)
    requires Junk(t) && t != []
    ensures Trim(t) != [] && Trim(t) <= t && Trim(Trim(t)) == Trim(t)
  {
    TrimRightAppend(t[..1], t[1..]);
    assert t == t[..1] + t[1..];
    TrimRightIsPrefix(t);
    TrimRightStops(t);
  }

  lemma JunkFails(t: Text, cidEtag: Text, dirEtag: Text)
    requires Junk(t)
    ensures !Matches(t, cidEtag, dirEtag)
  {
    if t != [] {
      JunkTrimmed(t);
      if Scan(Trim(t)).0 != [] {
        var item := ScannedIsTag(Trim(t));
      }
    }
  }

  /** The ways to read a text as a list. */
  ghost function Readings(t: Text): iset<Field> { iset f | IsList(f) && Header(f) == t }

  lemma Regroup(a: Text, b: Text, c: Text)
    ensures (a + b) + c == a + (b + c)
  {}

  lemma SeparatorInFront(t: Text, rest: Field) returns (f: Field)
    requires t != [] && Separates(t[0]) && rest in Readings(t[1..])
    ensures f in Readings(t)
  {
    var b := [t[0]];
    if rest.End? {
      f := End(b + rest.sep, rest.junk);
      Regroup(b, rest.sep, rest.junk);
    } else {
      f := More(b + rest.sep, rest.item, rest.rest);
      Regroup(b, rest.sep, Render(rest.item) + Header(rest.rest));
    }
  }

  lemma ItemInFront(t: Text, item: Item, rest: Field) returns (f: Field)
    requires WellFormed(item) && Render(item) <= t && rest in Readings(t[|Render(item)|..])
    ensures f in Readings(t)
  {
    f := More([], item, rest);
    RejoinAt(t, |Render(item)|);
  }

  lemma RejoinAt(t: Text, n: nat)
    requires n <= |t|
    ensures [] + (t[..n] + t[n..]) == t
  {}

  lemma JunkOnly(t: Text) returns (f: Field)
    requires Junk(t)
    ensures f in Readings(t)
  {
    f := End([], t);
    assert Header(f) == t;
  }

  lemma {:induction false} ReadAsList(t: Text) returns (f: Field)
    ensures f in Readings(t)
    decreases |t|
  {
    if Junk(t) {
      f := JunkOnly(t);
    } else if Separates(t[0]) {
      var rest := ReadAsList(t[1..]);
      f := SeparatorInFront(t, rest);
    } else {
      var item := StartsWithItem(t);
      var rest := ReadAsList(t[|Render(item)|..]);
      f := ItemInFront(t, item, rest);
    }
  }

  /** Every text is a list, up to where it goes wrong. */
  lemma EveryHeaderIsAList(t: Text) returns (f: Field)
    ensures IsList(f) && Header(f) == t
  {
    f := ReadAsList(t);
  }

  lemma StartsWithItem(t: Text) returns (item: Item)
    requires !Junk(t) && !Separates(t[0])
    ensures WellFormed(item) && Render(item) <= t && Render(item) != []
  {
    if t[0] == STAR {
      item := Any;
    } else {
      item :| IsTag(item) && Render(item) <= t;
    }
  }

  /** On every list, the scanner answers what the list says, wherever the match is and whatever separates the items. */
  lemma {:induction false} MatchesList(f: Field, cidEtag: Text, dirEtag: Text)
    requires IsList(f)
    ensures Matches(Header(f), cidEtag, dirEtag) == Wants(f, cidEtag, dirEtag)
    decreases f
  {
    match f
    case End(sep, junk) =>
      SkipsSeparator(sep, junk, cidEtag, dirEtag);
      JunkFails(junk, cidEtag, dirEtag);
    case More(sep, item, rest) =>
      var tail := Render(item) + Header(rest);
      SkipsSeparator(sep, tail, cidEtag, dirEtag);
      if item.Any? {
        TrimRightAppend([STAR], Header(rest));
      } else {
        ScansTag(item, Header(rest));
        TagStart(item.weak, item.opaqueTag, TrimRight(Header(rest)));
        MatchesTrimmed(Header(rest), cidEtag, dirEtag);
        MatchesList(rest, cidEtag, dirEtag);
      }
  }

  // ---------------------------------------------------------------- weak comparison

  lemma WeakIsPrefix(weak: bool, t: Text)
    ensures Render(Tag(weak, t)) == (if weak then WEAK else []) + Render(Tag(false, t))
    ensures Render(Tag(false, t)) == [QUOTE] + t + [QUOTE]
  {}

  lemma PrefixTrimmed(tag: Item)
    requires tag.Tag?
    ensures TrimPrefix(Render(tag)) == [QUOTE] + tag.opaqueTag + [QUOTE]
  {
    WeakIsPrefix(tag.weak, tag.opaqueTag);
    var strong := Render(Tag(false, tag.opaqueTag));
    if tag.weak {
      assert (WEAK + strong)[2..] == strong;
    } else {
      assert strong[0] == QUOTE != WEAK[0];
    }
  }

  /** Section 2.3.2 of RFC 7232: two entity-tags are weakly equal when their opaque-tags are the same, weak or not. */
  lemma WeakMatchIff(a: Item, b: Item)
    requires a.Tag? && b.Tag?
    ensures WeakMatch(Render(a), Render(b)) <==> a.opaqueTag == b.opaqueTag
  {
    PrefixTrimmed(a);
    PrefixTrimmed(b);
    if WeakMatch(Render(a), Render(b)) {
      var s, n := TrimPrefix(Render(a)), |a.opaqueTag|;
      assert s[1..n + 1] == a.opaqueTag && s[1..|s| - 1] == b.opaqueTag;
    }
  }

  /** The list holds a "*" or one of the two opaque-tags. */
  predicate Asks(f: Field, a: Text, b: Text) {
    f.More? && (f.item.Any? || f.item.opaqueTag == a || f.item.opaqueTag == b || Asks(f.rest, a, b))
  }

  lemma {:induction false} WantsIsAsks(f: Field, a: Item, b: Item)
    requires a.Tag? && b.Tag?
    ensures Wants(f, Render(a), Render(b)) == Asks(f, a.opaqueTag, b.opaqueTag)
    decreases f
  {
    if f.More? && f.item.Tag? {
      WeakMatchIff(f.item, a);
      WeakMatchIff(f.item, b);
      WantsIsAsks(f.rest, a, b);
    }
  }

  /** The answer for two entity-tags, by their opaque-tags alone. */
  lemma MatchesOpaque(f: Field, a: Item, b: Item)
    requires IsList(f) && a.Tag? && b.Tag?
    ensures Matches(Header(f), Render(a), Render(b)) <==> Asks(f, a.opaqueTag, b.opaqueTag)
  {
    MatchesList(f, Render(a), Render(b));
    WantsIsAsks(f, a, b);
  }

  /** So every header whatsoever has its answer: what the list says that it holds up to where it goes wrong. */
  lemma EveryHeaderAnswered(t: Text, a: Item, b: Item) returns (f: Field)
    requires a.Tag? && b.Tag?
    ensures IsList(f) && Header(f) == t
    ensures Matches(t, Render(a), Render(b)) <==> Asks(f, a.opaqueTag, b.opaqueTag)
  {
    f := EveryHeaderIsAList(t);
    MatchesOpaque(f, a, b);
  }

  // ---------------------------------------------------------------- the gateway's own tags

  /** Whatever follows the last '/' or '.' of a response format. */
  function ShortFormat(format: Text): (s: Text)
    ensures |s| <= |format| && s == format[|format| - |s|..]
  {
    if format == [] then []
    else
      var last := format[|format| - 1];
      if last == 0x2F || last == DOT then [] else ShortFormat(format[..|format| - 1]) + [last]
  }

  /** The short name holds no '/' and no '.', and one of them comes before it unless it is all there is. */
  lemma {:induction false} ShortFormatEnds(format: Text)
    ensures var name := ShortFormat(format);
            && (forall i :: 0 <= i < |name| ==> name[i] != 0x2F && name[i] != 0x2E)
            && (|name| < |format| ==> var b := format[|format| - |name| - 1]; b == 0x2F || b == 0x2E)
    decreases |format|
  {
    if format != [] {
      ShortFormatEnds(format[..|format| - 1]);
    }
  }

  function Suffix(format: Text): Text {
    if format == [] then [QUOTE] else [DOT] + ShortFormat(format) + [QUOTE]
  }

  /** getEtag: the CID in quotes, with the short name of an explicitly requested format. */
  function GetEtag(cid: Text, format: Text): Text { [QUOTE] + (cid + Suffix(format)) }

  function OpaquePart(cid: Text, format: Text): Text {
    if format == [] then cid else cid + [DOT] + ShortFormat(format)
  }

  lemma EtagIsTag(cid: Text, format: Text)
    ensures GetEtag(cid, format) == Render(Tag(false, OpaquePart(cid, format)))
  {
    WeakIsPrefix(false, OpaquePart(cid, format));
    assert cid + Suffix(format) == OpaquePart(cid, format) + [QUOTE];
  }

  predicate Dotless(t: Text) { forall i :: 0 <= i < |t| ==> t[i] != 0x2E }

  /** What a tag ends with: the quote, or a dot and more. */
  predicate IsSuffix(suffix: Text) { suffix == [QUOTE] || (|suffix| >= 2 && suffix[0] == 0x2E) }

  lemma SplitsAtDot(cid: Text, suffix: Text, cid': Text, suffix': Text)
    requires Dotless(cid) && Dotless(cid') && IsSuffix(suffix) && IsSuffix(suffix') && cid + suffix == cid' + suffix'
    ensures |cid| <= |cid'|
  {
    var s := cid + suffix;
    assert s[|cid'|] == suffix'[0];
  }

  lemma SameSplit(cid: Text, suffix: Text, cid': Text, suffix': Text)
    requires Dotless(cid) && Dotless(cid') && IsSuffix(suffix) && IsSuffix(suffix') && cid + suffix == cid' + suffix'
    ensures cid == cid' && suffix == suffix'
  {
    SplitsAtDot(cid, suffix, cid', suffix');
    SplitsAtDot(cid', suffix', cid, suffix);
    var s := cid + suffix;
    assert s[..|cid|] == cid && s[|cid|..] == suffix && (cid' + suffix')[..|cid'|] == cid';
    assert (cid' + suffix')[|cid'|..] == suffix';
  }

  lemma SuffixesDifferIff(format: Text, format': Text)
    ensures Suffix(format) == Suffix(format') <==>
            (format == [] <==> format' == []) && ShortFormat(format) == ShortFormat(format')
  {
    if format != [] && format' != [] {
      var s, s' := Suffix(format), Suffix(format');
      assert s[1..|s| - 1] == ShortFormat(format) && s'[1..|s'| - 1] == ShortFormat(format');
    }
  }

  /** A CID's tags differ exactly by CID and by the name of the format, as long as CIDs hold no '.'. */
  lemma TagsDifferIff(cid: Text, format: Text, cid': Text, format': Text)
    requires Dotless(cid) && Dotless(cid')
    ensures GetEtag(cid, format) == GetEtag(cid', format') <==>
            cid == cid' && (format == [] <==> format' == []) && ShortFormat(format) == ShortFormat(format')
  {
    SuffixesDifferIff(format, format');
    SameTail(cid + Suffix(format), cid' + Suffix(format'));
    if GetEtag(cid, format) == GetEtag(cid', format') {
      SameSplit(cid, Suffix(format), cid', Suffix(format'));
    }
  }

  lemma SameTail(a: Text, b: Text)
    ensures [QUOTE] + a == [QUOTE] + b <==> a == b
  {
    assert ([QUOTE] + a)[1..] == a && ([QUOTE] + b)[1..] == b;
  }

  const DIR_INDEX: Text := [0x44, 0x69, 0x72, 0x49, 0x6E, 0x64, 0x65, 0x78, 0x2D]   // DirIndex-
  const OF_CID: Text := [0x5F, 0x43, 0x49, 0x44, 0x2D]                               // _CID-

  function DirOpaquePart(assetHash: Text, cid: Text): Text { DIR_INDEX + assetHash + OF_CID + cid }

  /** getDirListingEtag. */
  function GetDirListingEtag(assetHash: Text, cid: Text): Text { [QUOTE] + DirOpaquePart(assetHash, cid) + [QUOTE] }

  lemma DirEtagIsTag(assetHash: Text, cid: Text)
    ensures GetDirListingEtag(assetHash, cid) == Render(Tag(false, DirOpaquePart(assetHash, cid)))
  {
    WeakIsPrefix(false, DirOpaquePart(assetHash, cid));
  }

  /** Directory listings of different CIDs have different tags, and so have those made with different assets. */
  lemma DirTagsDifferIff(assetHash: Text, cid: Text, assetHash': Text, cid': Text)
    requires |assetHash| == |assetHash'|
    ensures GetDirListingEtag(assetHash, cid) == GetDirListingEtag(assetHash', cid') <==>
            assetHash == assetHash' && cid == cid'
  {
    var n := 10 + |assetHash|;
    DirTagParts(assetHash, cid);
    DirTagParts(assetHash', cid');
  }

  lemma DirTagParts(assetHash: Text, cid: Text)
    ensures var s, n := GetDirListingEtag(assetHash, cid), 10 + |assetHash|;
            |s| == n + 6 + |cid| && s[10..n] == assetHash && s[n + 5..|s| - 1] == cid
  {}

  /** What the gateway asks about a CID: yes exactly when the list has a "*" or one of the CID's own two opaque-tags. */
  lemma NotModifiedIff(f: Field, cid: Text, format: Text, assetHash: Text)
    requires IsList(f)
    ensures Matches(Header(f), GetEtag(cid, format), GetDirListingEtag(assetHash, cid)) <==>
            Asks(f, OpaquePart(cid, format), DirOpaquePart(assetHash, cid))
  {
    var a, b := Tag(false, OpaquePart(cid, format)), Tag(false, DirOpaquePart(assetHash, cid));
    EtagIsTag(cid, format);
    DirEtagIsTag(assetHash, cid);
    MatchesOpaque(f, a, b);
  }

  /** Field `f` lists the opaque part `t`, strong or weak. */
  predicate Lists(f: Field, t: Text) {
    f.More? && ((f.item.Tag? && f.item.opaqueTag == t) || Lists(f.rest, t))
  }

  /** A tag handed out by the gateway matches when it comes back in a list, with or without W/. */
  lemma EchoMatches(f: Field, cid: Text, format: Text, dirEtag: Text)
    requires IsList(f) && Lists(f, OpaquePart(cid, format))
    ensures Matches(Header(f), GetEtag(cid, format), dirEtag) && Matches(Header(f), dirEtag, GetEtag(cid, format))
  {
    var t := OpaquePart(cid, format);
    EtagIsTag(cid, format);
    ListedIsWanted(f, t, dirEtag);
    MatchesList(f, GetEtag(cid, format), dirEtag);
    MatchesList(f, dirEtag, GetEtag(cid, format));
  }

  lemma {:induction false} ListedIsWanted(f: Field, t: Text, other: Text)
    requires Lists(f, t)
    ensures Wants(f, Render(Tag(false, t)), other) && Wants(f, other, Render(Tag(false, t)))
    decreases f
  {
    if f.item.Tag? && f.item.opaqueTag == t {
      WeakMatchIff(f.item, Tag(false, t));
    } else {
      ListedIsWanted(f.rest, t, other);
    }
  }

  lemma LegalTag(cid: Text, format: Text)
    requires Legal(cid) && Legal(format)
    ensures Legal(OpaquePart(cid, format))
  {}

  lemma EmptyAround(t: Text)
    ensures [] + (t + ([] + [])) == t
  {}

  /** A list of one tag. */
  lemma Alone(weak: bool, t: Text) returns (f: Field)
    requires Legal(t)
    ensures IsList(f) && Lists(f, t) && Header(f) == (if weak then WEAK else []) + Render(Tag(false, t))
  {
    f := More([], Tag(weak, t), End([], []));
    WeakIsPrefix(weak, t);
    EmptyAround(Render(Tag(weak, t)));
  }

  /** So it does when it comes back alone. */
  lemma EchoAloneMatches(weak: bool, cid: Text, format: Text, dirEtag: Text)
    requires Legal(cid) && Legal(format)
    ensures Matches((if weak then WEAK else []) + GetEtag(cid, format), GetEtag(cid, format), dirEtag)
  {
    LegalTag(cid, format);
    EtagIsTag(cid, format);
    var f := Alone(weak, OpaquePart(cid, format));
    EchoMatches(f, cid, format, dirEtag);
  }
}
