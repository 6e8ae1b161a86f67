/** The byte window of `ipfs cat` over several files (core/commands/cat.go). */
module Cat {
  import opened Common

  const MAX_INT64: int := 0x7FFF_FFFF_FFFF_FFFF
  const MAX_UINT64: int := 0xFFFF_FFFF_FFFF_FFFF

  datatype Error = NotFound | IsDirectory | NotSupported

  /** What a path resolves to. */
  datatype Entry = File(bytes: seq<byte>) | Unreadable(error: Error)

  /** A file from its current position on, or at most `limit` bytes of it. */
  datatype Reader = Rest(bytes: seq<byte>) | Limited(bytes: seq<byte>, limit: int)

  /** The readers to concatenate, and the number of bytes they will yield. */
  datatype Listing = Listing(readers: seq<Reader>, length: nat)

  // ---------------------------------------------------------------- slicing

  function Take(s: seq<byte>, n: nat): seq<byte> { if n <= |s| then s[..n] else s }

  function Drop(s: seq<byte>, n: nat): seq<byte> { if n <= |s| then s[n..] else [] }

  /** `max` bytes from `offset` on; a negative `max` is no limit. */
  function Window(s: seq<byte>, offset: nat, max: int): seq<byte> {
    if max < 0 then Drop(s, offset) else Take(Drop(s, offset), max)
  }

  /** The data of the leading files, up to the first entry that is not a file. */
  function Leading(entries: seq<Entry>): seq<byte> {
    if entries == [] || entries[0].Unreadable? then [] else entries[0].bytes + Leading(entries[1..])
  }

  predicate AllFiles(entries: seq<Entry>) { forall i :: 0 <= i < |entries| ==> entries[i].File? }

  /** The leading files fill the window, so that nothing after them is asked for. */
  predicate Filled(entries: seq<Entry>, offset: nat, max: int) {
    max == 0 || (max > 0 && offset + max <= |Leading(entries)|)
  }

  function ReadAll(r: Reader): seq<byte>
    requires r.Limited? ==> 0 <= r.limit
  {
    if r.Rest? then r.bytes else Take(r.bytes, r.limit)
  }

  predicate LimitsValid(readers: seq<Reader>) {
    forall i :: 0 <= i < |readers| ==> readers[i].Limited? ==> 0 <= readers[i].limit
  }

  function Output(readers: seq<Reader>): (out: seq<byte>)
    requires LimitsValid(readers)
  {
    if readers == [] then [] else Output(readers[..|readers| - 1]) + ReadAll(readers[|readers| - 1])
  }

  // ---------------------------------------------------------------- the code

  lemma {:induction false} LeadingGrows(entries: seq<Entry>, i: nat)
    requires i < |entries| && AllFiles(entries[..i])
    ensures Leading(entries[..i + 1]) == Leading(entries[..i]) + (if entries[i].File? then entries[i].bytes else [])
    decreases i
  {
    if i > 0 {
      assert entries[..i][1..] == entries[1..][..i - 1] && entries[..i + 1][1..] == entries[1..][..i];
      assert AllFiles(entries[1..][..i - 1]);
      LeadingGrows(entries[1..], i - 1);
      assert entries[0] == entries[..i][0] && entries[0].File?;
    }
  }

  /** Entries beyond a first stretch of files only add to the leading data, and a failing one ends it. */
  lemma {:induction false} LeadingExtends(entries: seq<Entry>, i: nat)
    requires i <= |entries| && AllFiles(entries[..i])
    ensures |Leading(entries[..i])| <= |Leading(entries)|
    ensures Leading(entries)[..|Leading(entries[..i])|] == Leading(entries[..i])
    ensures i < |entries| && entries[i].Unreadable? ==> Leading(entries) == Leading(entries[..i])
    decreases i
  {
    if i > 0 {
      assert entries[0] == entries[..i][0] && entries[0].File?;
      assert entries[..i][1..] == entries[1..][..i - 1];
      LeadingExtends(entries[1..], i - 1);
    }
  }

  /** The bytes of a file come right after those of the files before it. */
  lemma LeadingBytes(entries: seq<Entry>, i: nat, k: nat)
    requires i < |entries| && AllFiles(entries[..i]) && entries[i].File? && k < |entries[i].bytes|
    ensures |Leading(entries[..i])| + k < |Leading(entries)|
    ensures Leading(entries)[|Leading(entries[..i])| + k] == entries[i].bytes[k]
  {
    var n := |Leading(entries[..i])|;
    FilesGrow(entries, i);
    LeadingExtends(entries, i + 1);
    assert Leading(entries)[n + k] == Leading(entries[..i + 1])[n + k];
  }

  /** The bytes of a window, one by one. */
  lemma WindowBytes(s: seq<byte>, offset: nat, max: int)
    ensures |Window(s, offset, max)| ==
            if offset >= |s| then 0 else if max < 0 || |s| - offset < max then |s| - offset else max
    ensures forall j :: 0 <= j < |Window(s, offset, max)| ==> Window(s, offset, max)[j] == s[offset + j]
  {}

  /** One more file with part of the window still open. */
  lemma WindowGrows(s: seq<byte>, f: seq<byte>, offset: nat, max: int)
    requires max < 0 || |Window(s, offset, max)| < max
    ensures Window(s + f, offset, max) ==
            Window(s, offset, max) +
            Window(f, if offset <= |s| then 0 else offset - |s|,
                   if max < 0 then max else max - |Window(s, offset, max)|)
  {}

  /** Before entry `i`: everything the files so far contribute is in the readers, and the window is still open. */
  ghost predicate At(entries: seq<Entry>, i: nat, start: nat, max: int, readers: seq<Reader>, length: nat,
                     offset: nat)
  {
    i <= |entries| && AllFiles(entries[..i]) && (readers, length, offset) in Readings(Leading(entries[..i]), start, max)
  }

  /** The readers yield what `data` has in the window, which is still open. */
  ghost predicate Reading(data: seq<byte>, start: nat, max: int, readers: seq<Reader>, length: nat, offset: nat) {
    && LimitsValid(readers) && Output(readers) == Window(data, start, max) && length == |Output(readers)|
    && (max > 0 ==> length < max)
    && offset == if start <= |data| then 0 else start - |data|
  }

  ghost function Readings(data: seq<byte>, start: nat, max: int): iset<(seq<Reader>, nat, nat)> {
    iset x: (seq<Reader>, nat, nat) | Reading(data, start, max, x.0, x.1, x.2)
  }

  lemma StartsAt(entries: seq<Entry>, start: nat, max: int)
    requires max != 0
    ensures At(entries, 0, start, max, [], 0, start)
  {}

  lemma OutputGrows(readers: seq<Reader>, r: Reader)
    requires LimitsValid(readers) && LimitsValid([r])
    ensures LimitsValid(readers + [r]) && Output(readers + [r]) == Output(readers) + ReadAll([r][0])
  {
    assert (readers + [r])[..|readers|] == readers;
  }

  lemma FilesGrow(entries: seq<Entry>, i: nat)
    requires i < |entries| && AllFiles(entries[..i]) && entries[i].File?
    ensures AllFiles(entries[..i + 1]) && Leading(entries[..i + 1]) == Leading(entries[..i]) + entries[i].bytes
  {
    LeadingGrows(entries, i);
  }

  lemma Skips(entries: seq<Entry>, i: nat, start: nat, max: int, readers: seq<Reader>, length: nat, offset: nat)
    requires At(entries, i, start, max, readers, length, offset) && max != 0
    requires i < |entries| && entries[i].File? && offset > |entries[i].bytes|
    ensures At(entries, i + 1, start, max, readers, length, offset - |entries[i].bytes|)
  {
    FilesGrow(entries, i);
    assert Reading(Leading(entries[..i]) + entries[i].bytes, start, max, readers, length, offset - |entries[i].bytes|);
  }

  lemma ReadsOn(entries: seq<Entry>, i: nat, start: nat, max: int, readers: seq<Reader>, length: nat, offset: nat)
    requires At(entries, i, start, max, readers, length, offset) && max != 0
    requires i < |entries| && entries[i].File? && offset <= |entries[i].bytes|
    requires max > 0 ==> length + |entries[i].bytes| - offset < max
    ensures var rest := entries[i].bytes[offset..];
            At(entries, i + 1, start, max, readers + [Rest(rest)], length + |rest|, 0)
  {
    FilesGrow(entries, i);
    ReadingOn(Leading(entries[..i]), entries[i].bytes, start, max, readers, length, offset);
  }

  lemma ReadingOn(data: seq<byte>, f: seq<byte>, start: nat, max: int, readers: seq<Reader>, length: nat, offset: nat)
    requires (readers, length, offset) in Readings(data, start, max) && max != 0
    requires offset <= |f| && (max > 0 ==> length + |f| - offset < max)
    ensures (readers + [Rest(f[offset..])], length + |f[offset..]|, 0) in Readings(data + f, start, max)
  {
    ReadingGrows(data, f, start, max, readers, length, offset);
  }

  lemma ReadingGrows(data: seq<byte>, f: seq<byte>, start: nat, max: int, readers: seq<Reader>, length: nat,
                     offset: nat)
    requires Reading(data, start, max, readers, length, offset) && max != 0
    requires offset <= |f| && (max > 0 ==> length + |f| - offset < max)
    ensures Reading(data + f, start, max, readers + [Rest(f[offset..])], length + |f[offset..]|, 0)
  {
    OutputGrows(readers, Rest(f[offset..]));
    WindowOpen(data, f, start, max, length, offset);
  }

  /** A file that leaves the window open. */
  lemma WindowOpen(s: seq<byte>, f: seq<byte>, start: nat, max: int, length: nat, offset: nat)
    requires length == |Window(s, start, max)| && max != 0 && (max > 0 ==> length + |f| - offset < max)
    requires offset == (if start <= |s| then 0 else start - |s|) && offset <= |f|
    ensures Window(s + f, start, max) == Window(s, start, max) + f[offset..] && start <= |s + f|
  {
    WindowGrows(s, f, start, max);
  }

  lemma Finishes(entries: seq<Entry>, i: nat, start: nat, max: int, readers: seq<Reader>, length: nat, offset: nat,
                 last: Reader)
    requires At(entries, i, start, max, readers, length, offset) && max > 0
    requires i < |entries| && entries[i].File? && offset <= |entries[i].bytes|
    requires LimitsValid([last]) && length + |entries[i].bytes| - offset >= max
    requires ReadAll([last][0]) == Take(entries[i].bytes[offset..], max - length)
    ensures LimitsValid(readers + [last]) && Filled(entries, start, max)
    ensures Output(readers + [last]) == Window(Leading(entries), start, max)
    ensures |Window(Leading(entries), start, max)| == max
  {
    FilesGrow(entries, i);
    LeadingExtends(entries, i + 1);
    OutputGrows(readers, last);
    WindowFills(Leading(entries[..i]), entries[i].bytes, start, max, length, offset);
    WindowStable(Leading(entries[..i + 1]), Leading(entries), start, max);
  }

  /** The file that fills the window. */
  lemma WindowFills(s: seq<byte>, f: seq<byte>, start: nat, max: int, length: nat, offset: nat)
    requires max > 0 && length == |Window(s, start, max)| < max
    requires offset == (if start <= |s| then 0 else start - |s|) && offset <= |f| && length + |f| - offset >= max
    ensures Window(s + f, start, max) == Window(s, start, max) + Take(f[offset..], max - length)
    ensures start + max <= |s + f| && |Window(s + f, start, max)| == max
  {
    WindowGrows(s, f, start, max);
  }

  /** Data beyond a filled window does not show. */
  lemma WindowStable(s: seq<byte>, t: seq<byte>, offset: nat, max: int)
    requires |s| <= |t| && t[..|s|] == s && 0 < max && offset + max <= |s|
    ensures Window(t, offset, max) == Window(s, offset, max)
  {}

  /** An entry that is no file comes before the window is full. */
  lemma FailsAt(entries: seq<Entry>, i: nat, start: nat, max: int, readers: seq<Reader>, length: nat, offset: nat)
    requires At(entries, i, start, max, readers, length, offset) && max != 0
    requires i < |entries| && entries[i].Unreadable?
    ensures !AllFiles(entries) && !Filled(entries, start, max)
  {
    LeadingExtends(entries, i);
  }

  /** The files come to an end before the window is full. */
  lemma RunsOut(entries: seq<Entry>, start: nat, max: int, readers: seq<Reader>, length: nat, offset: nat)
    requires At(entries, |entries|, start, max, readers, length, offset)
    ensures AllFiles(entries) && LimitsValid(readers) && length == |Output(readers)|
    ensures Output(readers) == Window(Leading(entries), start, max)
  {
    assert entries[..|entries|] == entries;
  }

  /** The reader of the file that fills the window, cut by what it overshoots. */
  method LastReader(rest: seq<byte>, length: nat, max: int) returns (reader: Reader)
    requires length < max <= length + |rest|
    ensures LimitsValid([reader]) && ReadAll([reader][0]) == Take(rest, max - length)
  {
    reader := Rest(rest);
    var overshoot := length + |rest| - max;
    if overshoot != 0 {
      reader := Limited(rest, |rest| - overshoot);
    }
  }

  method Cat(entries: seq<Entry>, start: nat, max: int) returns (r: Result<Listing, Error>)
    ensures r.Err? <==> !AllFiles(entries) && !Filled(entries, start, max)
    ensures r.Err? ==> exists i :: 0 <= i < |entries| && AllFiles(entries[..i]) && entries[i] == Unreadable(r.error)
    ensures r.Ok? ==> LimitsValid(r.value.readers) && Output(r.value.readers) == Window(Leading(entries), start, max)
    ensures r.Ok? ==> r.value.length == |Window(Leading(entries), start, max)|
  {
    var readers: seq<Reader>, length: nat := [], 0;
    var offset: nat := start;
    if max == 0 {
      return Ok(Listing([], 0));
    }
    StartsAt(entries, start, max);
    for i := 0 to |entries|
      invariant At(entries, i, start, max, readers, length, offset)
    {
      if entries[i].Unreadable? {
        FailsAt(entries, i, start, max, readers, length, offset);
        return Err(entries[i].error);
      }
      var file := entries[i].bytes;
      var fsize := |file|;
      if offset > fsize {
        Skips(entries, i, start, max, readers, length, offset);
        offset := offset - fsize;
        continue;
      }
      var rest := file[offset..];
      var size := |rest|;
      assert max > 0 && max <= MAX_INT64 && size <= MAX_INT64 ==> length + size <= MAX_UINT64;
      if max > 0 && length + size >= max {
        var reader := LastReader(rest, length, max);
        Finishes(entries, i, start, max, readers, length, offset, reader);
        return Ok(Listing(readers + [reader], max));
      }
      ReadsOn(entries, i, start, max, readers, length, offset);
      readers, length, offset := readers + [Rest(rest)], length + size, 0;
    }
    RunsOut(entries, start, max, readers, length, offset);
    return Ok(Listing(readers, length));
  }
}
