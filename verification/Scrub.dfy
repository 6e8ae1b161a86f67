/**
 Concealing parts of the configuration (core/commands/config.go): scrubbing by selector, and matching keys against it.
 */
module Scrub {
  import opened Common

  datatype Error = KeyNotFound

  /** A decoded JSON value: an object, or anything else. */
  datatype Json = Object(fields: map<string, Json>) | Other(text: string)

  /** A Go interface value: nil, or one that holds a value. A nil map in an interface is not a nil interface. */
  datatype Interface = Nil | NilMap | Holds(value: Json)

  const STAR := "*"

  /** strings.EqualFold compares two strings after folding case. */
  type Fold = string -> string

  predicate EqualFold(fold: Fold, a: string, b: string) { fold(a) == fold(b) }

  /** One pattern of a selector against one key. */
  predicate Selects(fold: Fold, pattern: string, key: string) { pattern == STAR || EqualFold(fold, pattern, key) }

  // ---------------------------------------------------------------- what scrubbing leaves

  function ScrubFields(fold: Fold, m: map<string, Json>, key: seq<string>): (n: map<string, Json>)
    decreases |key|, 1
  {
    if key == [] then map[]
    else
      map k | k in m && (Selects(fold, key[0], k) ==> Kept(fold, m[k], key[1..]).Some?) ::
        if Selects(fold, key[0], k) then Kept(fold, m[k], key[1..]).value else m[k]
  }

  /** What is left of a selected value; None if it goes. */
  function Kept(fold: Fold, v: Json, key: seq<string>): (u: Option<Json>)
    decreases |key|, 2
  {
    if v.Object? then Some(Object(ScrubFields(fold, v.fields, key))) else None
  }

  // ---------------------------------------------------------------- the code

  function ScrubValueInternal(v: Interface, okIfMissing: bool): Result<Option<Json>, Error> {
    if v.Nil? && !okIfMissing then Err(KeyNotFound) else Ok(None)
  }

  method ScrubEither(fold: Fold, u: Json, key: seq<string>, okIfMissing: bool) returns (r: Result<Option<Json>, Error>)
    ensures r == Ok(Kept(fold, u, key))
    decreases |key|, 2
  {
    if u.Object? {
      var m := ScrubMapInternal(fold, u.fields, key, okIfMissing);
      return if m.Ok? then Ok(Some(Object(m.value))) else Err(KeyNotFound);
    }
    return ScrubValueInternal(NilMap, okIfMissing);
  }

  /** Never fails, and leaves exactly the scrubbed fields. */
  method ScrubMapInternal(fold: Fold, m: map<string, Json>, key: seq<string>, okIfMissing: bool)
    returns (r: Result<map<string, Json>, Error>)
    ensures r == Ok(ScrubFields(fold, m, key))
    decreases |key|, 1
  {
    if |key| == 0 {
      return Ok(map[]);
    }
    ghost var full := ScrubFields(fold, m, key);
    var n: map<string, Json> := map[];
    var todo := m.Keys;
    while todo != {}
      invariant todo <= m.Keys
      invariant forall k :: k in n <==> k in full && k !in todo
      invariant forall k :: k in n ==> n[k] == full[k]
      decreases todo
    {
      var k :| k in todo;
      todo := todo - {k};
      if key[0] == STAR || EqualFold(fold, key[0], k) {
        var u := ScrubEither(fold, m[k], key[1..], okIfMissing);
        if u.Err? {
          return Err(KeyNotFound);
        }
        if u.value.Some? {
          n := n[k := u.value.value];
        }
      } else {
        n := n[k := m[k]];
      }
    }
    assert n == full;
    return Ok(n);
  }

  /** The key has been split at its dots. */
  predicate MatchesUpTo(fold: Fold, k: seq<string>, glob: seq<string>, n: nat) {
    forall i :: 0 <= i < n && i < |k| && i < |glob| ==> Selects(fold, glob[i], k[i])
  }

  predicate MatchesGlob(fold: Fold, k: seq<string>, glob: seq<string>) { MatchesUpTo(fold, k, glob, |glob|) }

  method MatchesGlobPrefix(fold: Fold, k: seq<string>, glob: seq<string>) returns (r: bool)
    ensures r == MatchesGlob(fold, k, glob) == Covers(fold, glob, k)
  {
    CoversIff(fold, glob, k);
    for i := 0 to |glob|
      invariant MatchesUpTo(fold, k, glob, i)
    {
      var g := glob[i];
      if i >= |k| {
        break;
      }
      if g == STAR {
        continue;
      }
      if !EqualFold(fold, k[i], g) {
        return false;
      }
    }
    return true;
  }

  // ---------------------------------------------------------------- scrubbing agrees with matching

  function Lookup(m: map<string, Json>, path: seq<string>): (v: Option<Json>)
    decreases |path|
  {
    if path == [] then Some(Object(m))
    else if path[0] !in m then None
    else if |path| == 1 then Some(m[path[0]])
    else if m[path[0]].Object? then Lookup(m[path[0]].fields, path[1..])
    else None
  }

  /** What scrubbing makes of the value at `path`, from that value alone. */
  function ScrubbedAt(fold: Fold, v: Option<Json>, path: seq<string>, key: seq<string>): Option<Json> {
    if !MatchesGlob(fold, path, key) then v
    else if |path| > |key| || v.None? then None
    else Kept(fold, v.value, key[|path|..])
  }

  /**
   Scrubbing and matching agree at every path: a path the selector does not match keeps its value; one that it matches
   in full holds nothing or an empty object afterwards; one that it matches part of the way keeps objects only.
   */
  lemma {:induction false} ScrubAt(fold: Fold, m: map<string, Json>, path: seq<string>, key: seq<string>)
    requires path != []
    ensures Lookup(ScrubFields(fold, m, key), path) == ScrubbedAt(fold, Lookup(m, path), path, key)
    decreases |path|
  {
    if key != [] {
      var k, n := path[0], ScrubFields(fold, m, key);
      if Selects(fold, key[0], k) && |path| > 1 && k in m && m[k].Object? {
        ScrubAt(fold, m[k].fields, path[1..], key[1..]);
        assert MatchesGlob(fold, path, key) <==> MatchesGlob(fold, path[1..], key[1..]) by {
          MatchesTail(fold, path, key);
        }
        assert |path| <= |key| ==> key[1..][|path| - 1..] == key[|path|..];
      } else if Selects(fold, key[0], k) && |path| == 1 {
        assert MatchesGlob(fold, path, key);
      }
    }
  }

  /** Part by part, as far as both go: "*" covers any key, any other pattern the keys that are equal up to case. */
  predicate Covers(fold: Fold, key: seq<string>, path: seq<string>) {
    forall i :: 0 <= i < |key| && i < |path| ==> key[i] == "*" || fold(key[i]) == fold(path[i])
  }

  /** What is at every path after scrubbing, from what was there before: this determines the result. */
  lemma ScrubbedByCases(fold: Fold, m: map<string, Json>, path: seq<string>, key: seq<string>)
    requires path != []
    ensures var before, after := Lookup(m, path), Lookup(ScrubFields(fold, m, key), path);
            if !Covers(fold, key, path) then after == before
            else if |path| > |key| || before.None? || !before.value.Object? then after.None?
            else after.Some? && after.value.Object? && (|path| == |key| ==> after.value == Object(map[]))
  {
    ScrubAt(fold, m, path, key);
    CoversIff(fold, key, path);
    if Covers(fold, key, path) && |path| == |key| {
      FullMatchConceals(fold, m, path, key);
    }
  }

  lemma CoversIff(fold: Fold, key: seq<string>, path: seq<string>)
    ensures Covers(fold, key, path) <==> MatchesGlob(fold, path, key)
  {}

  /** Whatever a selector matches in full is gone, or an empty object. */
  lemma FullMatchConceals(fold: Fold, m: map<string, Json>, path: seq<string>, key: seq<string>)
    requires path != [] && |path| >= |key| && MatchesGlob(fold, path, key)
    ensures var v := Lookup(ScrubFields(fold, m, key), path); v.None? || v.value == Object(map[])
  {
    ScrubAt(fold, m, path, key);
    var v := Lookup(m, path);
    if |path| == |key| && v.Some? && v.value.Object? {
      assert key[|path|..] == [];
      assert ScrubFields(fold, v.value.fields, key[|path|..]) == map[];
    }
  }

  lemma MatchesTail(fold: Fold, path: seq<string>, key: seq<string>)
    requires path != [] && key != [] && Selects(fold, key[0], path[0])
    ensures MatchesGlob(fold, path, key) <==> MatchesGlob(fold, path[1..], key[1..])
  {
    if MatchesGlob(fold, path[1..], key[1..]) {
      forall i | 0 <= i < |path| && i < |key|
        ensures Selects(fold, key[i], path[i])
      {
        if i > 0 {
          assert key[1..][i - 1] == key[i] && path[1..][i - 1] == path[i];
        }
      }
    }
  }

  /** Scrubbing twice is scrubbing once. */
  lemma {:induction false} ScrubTwice(fold: Fold, m: map<string, Json>, key: seq<string>)
    ensures ScrubFields(fold, ScrubFields(fold, m, key), key) == ScrubFields(fold, m, key)
    decreases |key|
  {
    if key != [] {
      var n := ScrubFields(fold, m, key);
      forall k | k in n && Selects(fold, key[0], k)
        ensures Kept(fold, n[k], key[1..]) == Some(n[k])
      {
        assert Kept(fold, m[k], key[1..]).Some?;
        ScrubTwice(fold, m[k].fields, key[1..]);
      }
    }
  }
}
