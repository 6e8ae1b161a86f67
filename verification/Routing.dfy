/**
 Router construction (routing/delegated.go, config/routing.go): routers are named in the configuration and composed of
 other routers by name. `parse` builds each one once, remembers it, and has to tell a dependency loop from a shared
 dependency.
 */
module Routing {
  import opened Common

  datatype Error =
    | DependencyLoop(name: string)
    | ConfigNotFound(name: string)
    | UnknownRouterType(typeName: string)
    | CannotBuild
    | MethodMissing(name: string)
    | MethodUnsupported(name: string)

  /** One entry of a composed router. */
  datatype ConfigRouter = ConfigRouter(routerName: string, timeout: int, ignoreErrors: bool, executeAfter: Option<int>)

  datatype RouterConfig =
    | Reframe(endpoint: string)
    | Dht(mode: string, accelerated: bool, publicIPNetwork: bool)
    | Parallel(routers: seq<ConfigRouter>)
    | Sequential(routers: seq<ConfigRouter>)
    | Unknown(typeName: string)

  type Routers = map<string, RouterConfig>

  /** The constructors of the leaf routers, which talk to the outside: a handle, or None when they fail. */
  type Build = RouterConfig -> Option<nat>

  /** A constructed router. A composition keeps its parts in the order of the configuration. */
  datatype Router = Leaf(handle: nat) | Composition(kind: Kind, parts: seq<Part>)

  datatype Kind = InParallel | InSequence

  /** A ParallelRouter or SequentialRouter of routinghelpers; only the former has an ExecuteAfter. */
  datatype Part = Part(router: Router, ignoreError: bool, timeout: int, executeAfter: Option<int>)

  predicate Composed(c: RouterConfig) { c.Parallel? || c.Sequential? }

  function WithDefault(d: Option<int>, default: int): int { if d.Some? then d.value else default }

  function KindOf(c: RouterConfig): Kind { if c.Parallel? then InParallel else InSequence }

  function PartOf(kind: Kind, cr: ConfigRouter, r: Router): Part {
    Part(r, cr.ignoreErrors, cr.timeout, if kind.InParallel? then Some(WithDefault(cr.executeAfter, 0)) else None)
  }

  // ---------------------------------------------------------------- unmemoised expansion

  /** Plain recursion with no memory but the chain of names being expanded. */
  function Expand(cfg: Routers, build: Build, name: string, chain: set<string>): (r: Result<Router, Error>)
    decreases cfg.Keys - chain, 1, 0
  {
    if name in chain then Err(DependencyLoop(name))
    else if name !in cfg then Err(ConfigNotFound(name))
    else
      var c := cfg[name];
      if c.Unknown? then Err(UnknownRouterType(c.typeName))
      else if !Composed(c) then (if build(c).Some? then Ok(Leaf(build(c).value)) else Err(CannotBuild))
      else
        assert cfg.Keys - (chain + {name}) < cfg.Keys - chain;
        var parts := ExpandAll(cfg, build, KindOf(c), c.routers, chain + {name});
        if parts.Ok? then Ok(Composition(KindOf(c), parts.value)) else Err(parts.error)
  }

  function ExpandAll(cfg: Routers, build: Build, kind: Kind, crs: seq<ConfigRouter>, chain: set<string>)
    : (r: Result<seq<Part>, Error>)
    ensures r.Ok? ==> |r.value| == |crs|
    decreases cfg.Keys - chain, 2, |crs|
  {
    if crs == [] then Ok([])
    else
      var n := |crs| - 1;
      var front := ExpandAll(cfg, build, kind, crs[..n], chain);
      if front.Err? then front
      else
        var last := Expand(cfg, build, crs[n].routerName, chain);
        if last.Err? then Err(last.error) else Ok(front.value + [PartOf(kind, crs[n], last.value)])
  }

  // ---------------------------------------------------------------- expansions as finite trees

  /** `r` is what `name` stands for. No chain: `r` is a finite tree, and that rules out loops. */
  ghost predicate Expands(cfg: Routers, build: Build, name: string, r: Router)
    decreases r
  {
    name in cfg && var c := cfg[name];
    if Composed(c) then
      && r.Composition? && r.kind == KindOf(c) && |r.parts| == |c.routers|
      && forall i :: 0 <= i < |r.parts| ==>
           && r.parts[i] == PartOf(r.kind, c.routers[i], r.parts[i].router)
           && Expands(cfg, build, c.routers[i].routerName, r.parts[i].router)
    else
      !c.Unknown? && build(c).Some? && r == Leaf(build(c).value)
  }

  /** No name that occurs in the expansion `r` of `name` is in `names`. */
  ghost predicate Avoids(cfg: Routers, build: Build, name: string, r: Router, names: set<string>)
    requires Expands(cfg, build, name, r)
    decreases r
  {
    && name !in names
    && forall i :: 0 <= i < |Children(cfg, name)| ==>
         Avoids(cfg, build, Children(cfg, name)[i].routerName, r.parts[i].router, names)
  }

  function Children(cfg: Routers, name: string): seq<ConfigRouter> {
    if name in cfg && Composed(cfg[name]) then cfg[name].routers else []
  }

  lemma {:induction false} ExpandsOnce(cfg: Routers, build: Build, name: string, r: Router, r': Router)
    requires Expands(cfg, build, name, r) && Expands(cfg, build, name, r')
    ensures r == r'
    decreases r
  {
    if Composed(cfg[name]) {
      forall i | 0 <= i < |r.parts|
        ensures r.parts[i] == r'.parts[i]
      {
        ExpandsOnce(cfg, build, cfg[name].routers[i].routerName, r.parts[i].router, r'.parts[i].router);
      }
      assert r.parts == r'.parts;
    }
  }

  /** A name does not occur in the expansions of its own parts: it would contain itself. */
  lemma {:induction false} OccurrenceIsSmaller(cfg: Routers, build: Build, name: string, r: Router, inner: string)
    returns (r': Router)
    requires Expands(cfg, build, name, r) && !Avoids(cfg, build, name, r, {inner})
    ensures Expands(cfg, build, inner, r') && (r' == r || r' < r)
    decreases r
  {
    if name == inner {
      r' := r;
    } else {
      var i :| 0 <= i < |Children(cfg, name)| &&
               !Avoids(cfg, build, Children(cfg, name)[i].routerName, r.parts[i].router, {inner});
      r' := OccurrenceIsSmaller(cfg, build, Children(cfg, name)[i].routerName, r.parts[i].router, inner);
    }
  }

  /** ExpandAll succeeds exactly when each entry does, and puts the results in their places. */
  lemma {:induction false} ExpandAllParts(cfg: Routers, build: Build, kind: Kind, crs: seq<ConfigRouter>,
                                          chain: set<string>,
                                          parts: seq<Part>)
    ensures ExpandAll(cfg, build, kind, crs, chain) == Ok(parts) <==>
            && |parts| == |crs|
            && forall i :: 0 <= i < |crs| ==>
                 && parts[i] == PartOf(kind, crs[i], parts[i].router)
                 && Expand(cfg, build, crs[i].routerName, chain) == Ok(parts[i].router)
    decreases |crs|
  {
    if crs != [] && parts != [] {
      var n, m := |crs| - 1, |parts| - 1;
      ExpandAllParts(cfg, build, kind, crs[..n], chain, parts[..m]);
      assert parts == parts[..m] + [parts[m]];
      if ExpandAll(cfg, build, kind, crs, chain) == Ok(parts) {
        var front, last := ExpandAll(cfg, build, kind, crs[..n], chain), Expand(cfg, build, crs[n].routerName, chain);
        assert parts == front.value + [PartOf(kind, crs[n], last.value)];
        assert parts[..m] == front.value;
        forall i | 0 <= i < |crs|
          ensures parts[i] == PartOf(kind, crs[i], parts[i].router)
          ensures Expand(cfg, build, crs[i].routerName, chain) == Ok(parts[i].router)
        {
          if i < n {
            assert crs[..n][i] == crs[i] && parts[..m][i] == parts[i];
          }
        }
      }
    }
  }

  lemma {:induction false} ExpandIsTree(cfg: Routers, build: Build, name: string, chain: set<string>, r: Router)
    requires Expand(cfg, build, name, chain) == Ok(r)
    ensures Expands(cfg, build, name, r) && Avoids(cfg, build, name, r, chain)
    decreases cfg.Keys - chain
  {
    var c := cfg[name];
    if Composed(c) {
      assert cfg.Keys - (chain + {name}) < cfg.Keys - chain;
      ExpandAllParts(cfg, build, KindOf(c), c.routers, chain + {name}, r.parts);
      forall i | 0 <= i < |r.parts|
        ensures Expands(cfg, build, c.routers[i].routerName, r.parts[i].router)
        ensures Avoids(cfg, build, c.routers[i].routerName, r.parts[i].router, chain)
      {
        ExpandIsTree(cfg, build, c.routers[i].routerName, chain + {name}, r.parts[i].router);
        AvoidsFewer(cfg, build, c.routers[i].routerName, r.parts[i].router, chain + {name}, chain);
      }
    }
  }

  lemma {:induction false} AvoidsFewer(cfg: Routers, build: Build, name: string, r: Router, names: set<string>,
                                       fewer: set<string>)
    requires Expands(cfg, build, name, r) && Avoids(cfg, build, name, r, names) && fewer <= names
    ensures Avoids(cfg, build, name, r, fewer)
    decreases r
  {
    forall i | 0 <= i < |Children(cfg, name)|
      ensures Avoids(cfg, build, Children(cfg, name)[i].routerName, r.parts[i].router, fewer)
    {
      AvoidsFewer(cfg, build, Children(cfg, name)[i].routerName, r.parts[i].router, names, fewer);
    }
  }

  lemma {:induction false} AvoidsBoth(cfg: Routers, build: Build, name: string, r: Router, a: set<string>,
                                      b: set<string>)
    requires Expands(cfg, build, name, r) && Avoids(cfg, build, name, r, a) && Avoids(cfg, build, name, r, b)
    ensures Avoids(cfg, build, name, r, a + b)
    decreases r
  {
    forall i | 0 <= i < |Children(cfg, name)|
      ensures Avoids(cfg, build, Children(cfg, name)[i].routerName, r.parts[i].router, a + b)
    {
      AvoidsBoth(cfg, build, Children(cfg, name)[i].routerName, r.parts[i].router, a, b);
    }
  }

  /** The chain does not matter as long as it stays clear of the names in the expansion. */
  lemma {:induction false} TreeIsExpand(cfg: Routers, build: Build, name: string, chain: set<string>, r: Router)
    requires Expands(cfg, build, name, r) && Avoids(cfg, build, name, r, chain)
    ensures Expand(cfg, build, name, chain) == Ok(r)
    decreases r
  {
    var c := cfg[name];
    if Composed(c) {
      forall i | 0 <= i < |r.parts|
        ensures Expand(cfg, build, c.routers[i].routerName, chain + {name}) == Ok(r.parts[i].router)
      {
        var child, part := c.routers[i].routerName, r.parts[i].router;
        if !Avoids(cfg, build, child, part, {name}) {
          var r' := OccurrenceIsSmaller(cfg, build, child, part, name);
          ExpandsOnce(cfg, build, name, r, r');
          assert false;
        }
        AvoidsBoth(cfg, build, child, part, chain, {name});
        TreeIsExpand(cfg, build, child, chain + {name}, part);
      }
      ExpandAllParts(cfg, build, KindOf(c), c.routers, chain + {name}, r.parts);
    }
  }

  // ---------------------------------------------------------------- when an expansion exists

  /** A path of `n` references leads from `a` to `b`. */
  ghost predicate Refers(cfg: Routers, a: string, b: string, n: nat)
    decreases n
  {
    if n == 0 then a == b
    else exists i :: 0 <= i < |Children(cfg, a)| && Refers(cfg, Children(cfg, a)[i].routerName, b, n - 1)
  }

  ghost predicate DependsOn(cfg: Routers, a: string, b: string) { exists n: nat :: Refers(cfg, a, b, n) }

  ghost predicate OnCycle(cfg: Routers, a: string) { exists n: nat :: n > 0 && Refers(cfg, a, a, n) }

  /** Defined, of a known type, and, for a leaf, constructible. */
  predicate Sound(cfg: Routers, build: Build, name: string) {
    name in cfg && !cfg[name].Unknown? && (!Composed(cfg[name]) ==> build(cfg[name]).Some?)
  }

  ghost predicate Constructible(cfg: Routers, build: Build, name: string) {
    forall m :: DependsOn(cfg, name, m) ==> Sound(cfg, build, m) && !OnCycle(cfg, m)
  }

  lemma {:induction false} ReferredIsInside(cfg: Routers, build: Build, name: string, r: Router, m: string, n: nat)
    returns (r': Router)
    requires Expands(cfg, build, name, r) && Refers(cfg, name, m, n)
    ensures Expands(cfg, build, m, r') && (if n == 0 then r' == r else r' < r)
    decreases n
  {
    if n == 0 {
      r' := r;
    } else {
      var i :| 0 <= i < |Children(cfg, name)| && Refers(cfg, Children(cfg, name)[i].routerName, m, n - 1);
      r' := ReferredIsInside(cfg, build, Children(cfg, name)[i].routerName, r.parts[i].router, m, n - 1);
    }
  }

  lemma TreeIsConstructible(cfg: Routers, build: Build, name: string, r: Router)
    requires Expands(cfg, build, name, r)
    ensures Constructible(cfg, build, name)
  {
    forall m | DependsOn(cfg, name, m)
      ensures Sound(cfg, build, m) && !OnCycle(cfg, m)
    {
      var n: nat :| Refers(cfg, name, m, n);
      var r' := ReferredIsInside(cfg, build, name, r, m, n);
      if OnCycle(cfg, m) {
        var k: nat :| k > 0 && Refers(cfg, m, m, k);
        var r'' := ReferredIsInside(cfg, build, m, r', m, k);
        ExpandsOnce(cfg, build, m, r', r'');
        assert false;
      }
    }
  }

  /** The error describes dependency `m`. A loop through the chain is a loop only if the chain leads there. */
  ghost predicate Blames(cfg: Routers, build: Build, chain: set<string>, e: Error, m: string) {
    match e
    case DependencyLoop(name) => name == m && (OnCycle(cfg, m) || m in chain)
    case ConfigNotFound(name) => name == m && m !in cfg
    case UnknownRouterType(typeName) => m in cfg && cfg[m] == Unknown(typeName)
    case CannotBuild => m in cfg && !Composed(cfg[m]) && build(cfg[m]).None?
    case _ => false
  }

  /** A failed expansion reports a dependency that really is at fault; a shared one is never reported as a loop. */
  lemma {:induction false} ErrorsAreTrue(cfg: Routers, build: Build, name: string, chain: set<string>)
    returns (m: string)
    requires Expand(cfg, build, name, chain).Err?
    ensures DependsOn(cfg, name, m) && Blames(cfg, build, chain, Expand(cfg, build, name, chain).error, m)
    decreases cfg.Keys - chain
  {
    assert Refers(cfg, name, name, 0);
    m := name;
    if Sound(cfg, build, name) && name !in chain {
      var c := cfg[name];
      assert cfg.Keys - (chain + {name}) < cfg.Keys - chain;
      var i := FailingEntry(cfg, build, KindOf(c), c.routers, chain + {name});
      var child := c.routers[i].routerName;
      m := ErrorsAreTrue(cfg, build, child, chain + {name});
      var n: nat :| Refers(cfg, child, m, n);
      assert Children(cfg, name)[i].routerName == child;
      assert Refers(cfg, name, m, n + 1);
    }
  }

  lemma {:induction false} FailingEntry(cfg: Routers, build: Build, kind: Kind, crs: seq<ConfigRouter>,
                                        chain: set<string>)
    returns (i: nat)
    requires ExpandAll(cfg, build, kind, crs, chain).Err?
    ensures i < |crs|
    ensures Expand(cfg, build, crs[i].routerName, chain) == Err(ExpandAll(cfg, build, kind, crs, chain).error)
    decreases |crs|
  {
    i := |crs| - 1;
    if ExpandAll(cfg, build, kind, crs[..i], chain).Err? {
      i := FailingEntry(cfg, build, kind, crs[..i], chain);
    }
  }

  /** Expansion succeeds exactly on names whose dependencies are all sound and on no cycle. */
  lemma ExpandIff(cfg: Routers, build: Build, name: string)
    ensures Expand(cfg, build, name, {}).Ok? <==> Constructible(cfg, build, name)
  {
    var e := Expand(cfg, build, name, {});
    if e.Ok? {
      ExpandIsTree(cfg, build, name, {}, e.value);
      TreeIsConstructible(cfg, build, name, e.value);
    } else {
      var m := ErrorsAreTrue(cfg, build, name, {});
    }
  }

  // ---------------------------------------------------------------- what a composition holds

  /** `part` is set as its entry in the configuration says; only a part of a parallel router waits. */
  predicate SetAs(part: Part, cr: ConfigRouter, parallel: bool) {
    && part.ignoreError == cr.ignoreErrors && part.timeout == cr.timeout
    && part.executeAfter == if !parallel then None else if cr.executeAfter.Some? then cr.executeAfter else Some(0)
  }

  predicate AllSetAs(parts: seq<Part>, crs: seq<ConfigRouter>, parallel: bool) {
    |parts| == |crs| && forall i :: 0 <= i < |crs| ==> SetAs(parts[i], crs[i], parallel)
  }

  /** The parts of a composition that are set as configured. */
  ghost function Settings(crs: seq<ConfigRouter>, parallel: bool): iset<seq<Part>> {
    iset parts | AllSetAs(parts, crs, parallel)
  }

  lemma PartsSetAs(cfg: Routers, build: Build, kind: Kind, crs: seq<ConfigRouter>, chain: set<string>,
                   parts: seq<Part>)
    requires ExpandAll(cfg, build, kind, crs, chain) == Ok(parts)
    ensures parts in Settings(crs, kind == InParallel)
  {
    ExpandAllParts(cfg, build, kind, crs, chain, parts);
    assert AllSetAs(parts, crs, kind == InParallel);
  }

  /**
   A name that parses stands for what is configured under it: a leaf that was built, or a composition of that kind with
   one part per entry, in order, each set as its entry says and each the router that the entry names.
   */
  lemma RouterAsConfigured(cfg: Routers, build: Build, name: string, r: Router)
    requires Expand(cfg, build, name, {}) == Ok(r)
    ensures name in cfg && !cfg[name].Unknown?
    ensures cfg[name].Reframe? || cfg[name].Dht? ==> build(cfg[name]).Some? && r == Leaf(build(cfg[name]).value)
    ensures cfg[name].Parallel? || cfg[name].Sequential? ==>
              && r.Composition? && (r.kind == InParallel <==> cfg[name].Parallel?)
              && AllSetAs(r.parts, cfg[name].routers, cfg[name].Parallel?)
              && forall i :: 0 <= i < |r.parts| ==>
                   Expand(cfg, build, cfg[name].routers[i].routerName, {}) == Ok(r.parts[i].router)
  {
    ExpandIsTree(cfg, build, name, {}, r);
    var c := cfg[name];
    if Composed(c) {
      forall i | 0 <= i < |r.parts|
        ensures Expand(cfg, build, c.routers[i].routerName, {}) == Ok(r.parts[i].router)
      {
        AvoidsNothing(cfg, build, c.routers[i].routerName, r.parts[i].router);
        TreeIsExpand(cfg, build, c.routers[i].routerName, {}, r.parts[i].router);
      }
    }
  }

  lemma {:induction false} AvoidsNothing(cfg: Routers, build: Build, name: string, r: Router)
    requires Expands(cfg, build, name, r)
    ensures Avoids(cfg, build, name, r, {})
    decreases r
  {
    forall i | 0 <= i < |Children(cfg, name)|
      ensures Avoids(cfg, build, Children(cfg, name)[i].routerName, r.parts[i].router, {})
    {
      AvoidsNothing(cfg, build, Children(cfg, name)[i].routerName, r.parts[i].router);
    }
  }

  // ---------------------------------------------------------------- the code

  /** Every created router is what its name stands for, and its parts are created too. */
  ghost predicate Memo(cfg: Routers, build: Build, created: map<string, Router>) {
    forall n :: n in created ==>
      && Expands(cfg, build, n, created[n])
      && forall i :: 0 <= i < |Children(cfg, n)| ==> Children(cfg, n)[i].routerName in created
  }

  lemma {:induction false} MemoAvoids(cfg: Routers, build: Build, created: map<string, Router>, name: string, r: Router,
                                      chain: set<string>)
    requires Memo(cfg, build, created) && name in created && Expands(cfg, build, name, r) && chain !! created.Keys
    ensures Avoids(cfg, build, name, r, chain)
    decreases r
  {
    forall i | 0 <= i < |Children(cfg, name)|
      ensures Avoids(cfg, build, Children(cfg, name)[i].routerName, r.parts[i].router, chain)
    {
      MemoAvoids(cfg, build, created, Children(cfg, name)[i].routerName, r.parts[i].router, chain);
    }
  }

  /** A remembered router is what expansion would yield at this point. */
  lemma MemoIsExpand(cfg: Routers, build: Build, created: map<string, Router>, name: string, chain: set<string>)
    requires Memo(cfg, build, created) && name in created && chain !! created.Keys
    ensures Expand(cfg, build, name, chain) == Ok(created[name])
  {
    MemoAvoids(cfg, build, created, name, created[name], chain);
    TreeIsExpand(cfg, build, name, chain, created[name]);
  }

  lemma MemoGrows(cfg: Routers, build: Build, created: map<string, Router>, name: string, chain: set<string>, r: Router)
    requires Memo(cfg, build, created) && Expand(cfg, build, name, chain) == Ok(r)
    requires forall i :: 0 <= i < |Children(cfg, name)| ==> Children(cfg, name)[i].routerName in created
    ensures Memo(cfg, build, created[name := r])
  {
    ExpandIsTree(cfg, build, name, chain, r);
  }

  lemma ExpandAllGrows(cfg: Routers, build: Build, kind: Kind, crs: seq<ConfigRouter>, chain: set<string>, i: nat)
    requires i < |crs|
    ensures ExpandAll(cfg, build, kind, crs[..i + 1], chain) ==
            var front, last := ExpandAll(cfg, build, kind, crs[..i], chain), Expand(cfg, build, crs[i].routerName,
                                         chain);
            if front.Err? then front
            else if last.Err? then Err(last.error)
            else Ok(front.value + [PartOf(kind, crs[i], last.value)])
  {
    assert crs[..i + 1][..i] == crs[..i];
  }

  lemma {:induction false} ExpandAllFails(cfg: Routers, build: Build, kind: Kind, crs: seq<ConfigRouter>,
                                          chain: set<string>, i: nat)
    requires i <= |crs| && ExpandAll(cfg, build, kind, crs[..i], chain).Err?
    ensures ExpandAll(cfg, build, kind, crs, chain) == ExpandAll(cfg, build, kind, crs[..i], chain)
    decreases |crs| - i
  {
    if i == |crs| {
      assert crs[..i] == crs;
    } else {
      ExpandAllGrows(cfg, build, kind, crs, chain, i);
      ExpandAllFails(cfg, build, kind, crs, chain, i + 1);
    }
  }

  class Parser {
    const cfg: Routers
    const build: Build
    var visited: set<string>
    var created: map<string, Router>

    constructor (cfg: Routers, build: Build)
      ensures this.cfg == cfg && this.build == build && visited == {} && created == map[]
    {
      this.cfg, this.build, visited, created := cfg, build, {}, map[];
    }

    /** Names whose construction has begun and not ended: the chain of the recursion. */
    ghost function Chain(): set<string>
      reads this
    {
      visited - created.Keys
    }

    ghost predicate Valid()
      reads this
    {
      Memo(cfg, build, created)
    }

    method Parse(name: string) returns (r: Result<Router, Error>)
      requires Valid()
      modifies this
      ensures r == Expand(cfg, build, name, old(Chain()))
      ensures old(visited) <= visited && old(created.Keys) <= created.Keys
      ensures r.Ok? ==> Valid() && Chain() == old(Chain()) && name in created
      decreases cfg.Keys - visited, 1
    {
      ghost var chain := Chain();
      if name in created {
        MemoIsExpand(cfg, build, created, name, chain);
        return Ok(created[name]);
      }
      if name in visited {
        return Err(DependencyLoop(name));
      }
      visited := visited + {name};
      if name !in cfg {
        return Err(ConfigNotFound(name));
      }
      var c := cfg[name];
      var router;
      match c {
        case Reframe(_) =>
          if build(c).None? {
            return Err(CannotBuild);
          }
          router := Leaf(build(c).value);
        case Dht(_, _, _) =>
          if build(c).None? {
            return Err(CannotBuild);
          }
          router := Leaf(build(c).value);
        case Parallel(crs) =>
          assert Chain() == chain + {name};
          var parts := ParseParts(InParallel, crs);
          if parts.Err? {
            return Err(parts.error);
          }
          router := Composition(InParallel, parts.value);
        case Sequential(crs) =>
          assert Chain() == chain + {name};
          var parts := ParseParts(InSequence, crs);
          if parts.Err? {
            return Err(parts.error);
          }
          router := Composition(InSequence, parts.value);
        case Unknown(typeName) =>
          return Err(UnknownRouterType(typeName));
      }
      MemoGrows(cfg, build, created, name, chain, router);
      created := created[name := router];
      return Ok(router);
    }

    /** The loop over the entries of a composed router. */
    method ParseParts(kind: Kind, crs: seq<ConfigRouter>) returns (r: Result<seq<Part>, Error>)
      requires Valid()
      modifies this
      ensures r == ExpandAll(cfg, build, kind, crs, old(Chain()))
      ensures r.Ok? ==> r.value in Settings(crs, kind == InParallel)
      ensures old(visited) <= visited && old(created.Keys) <= created.Keys
      ensures r.Ok? ==> Valid() && Chain() == old(Chain())
      ensures r.Ok? ==> forall i :: 0 <= i < |crs| ==> crs[i].routerName in created
      decreases cfg.Keys - visited, 2
    {
      var parts := [];
      for i := 0 to |crs|
        invariant Valid() && Chain() == old(Chain())
        invariant old(visited) <= visited && old(created.Keys) <= created.Keys
        invariant ExpandAll(cfg, build, kind, crs[..i], Chain()) == Ok(parts)
        invariant forall j :: 0 <= j < i ==> crs[j].routerName in created
      {
        ExpandAllGrows(cfg, build, kind, crs, Chain(), i);
        var cr := crs[i];
        var ri := Parse(cr.routerName);
        if ri.Err? {
          ExpandAllFails(cfg, build, kind, crs, old(Chain()), i + 1);
          return Err(ri.error);
        }
        parts := parts + [Part(ri.value, cr.ignoreErrors, cr.timeout,
                               if kind.InParallel? then Some(WithDefault(cr.executeAfter, 0)) else None)];
      }
      assert crs[..|crs|] == crs;
      PartsSetAs(cfg, build, kind, crs, Chain(), parts);
      return Ok(parts);
    }
  }

  // ---------------------------------------------------------------- methods

  const PROVIDE := "provide"
  const FIND_PROVIDERS := "find-providers"
  const FIND_PEERS := "find-peers"
  const GET_IPNS := "get-ipns"
  const PUT_IPNS := "put-ipns"
  const METHOD_NAMES: seq<string> := [PROVIDE, FIND_PEERS, FIND_PROVIDERS, GET_IPNS, PUT_IPNS]

  predicate Supported(name: string) { name in METHOD_NAMES }

  /** Each method's router, by method name. */
  type Methods = map<string, string>

  ghost predicate MethodsAtFault(m: Methods, e: Error) {
    || (e.MethodMissing? && Supported(e.name) && e.name !in m)
    || (e.MethodUnsupported? && e.name in m && !Supported(e.name))
  }

  /** Methods.Check: exactly the supported methods are configured. */
  method Check(m: Methods) returns (error: Option<Error>)
    ensures error.None? <==> forall name :: name in m <==> Supported(name)
    ensures error.Some? ==> MethodsAtFault(m, error.value)
  {
    for i := 0 to |METHOD_NAMES|
      invariant forall j :: 0 <= j < i ==> METHOD_NAMES[j] in m
    {
      if METHOD_NAMES[i] !in m {
        return Some(MethodMissing(METHOD_NAMES[i]));
      }
    }
    var keys := m.Keys;
    while keys != {}
      invariant keys <= m.Keys
      invariant forall k :: k in m.Keys && k !in keys ==> Supported(k)
      decreases keys
    {
      var k :| k in keys;
      var seen := false;
      for i := 0 to |METHOD_NAMES|
        invariant !seen && forall j :: 0 <= j < i ==> METHOD_NAMES[j] != k
      {
        if METHOD_NAMES[i] == k {
          seen := true;
          break;
        }
      }
      if !seen {
        return Some(MethodUnsupported(k));
      }
      keys := keys - {k};
    }
    return None;
  }

  /** The router that serves each method. */
  datatype Composer = Composer(
    getValueRouter: Option<Router>,
    putValueRouter: Option<Router>,
    findPeersRouter: Option<Router>,
    findProvidersRouter: Option<Router>,
    provideRouter: Option<Router>)

  predicate Served(cfg: Routers, build: Build, name: string, router: Option<Router>) {
    router.Some? && Expand(cfg, build, name, {}) == Ok(router.value)
  }

  /** The field that serves a method. */
  function Serves(c: Composer, mn: string): Option<Router> {
    if mn == PUT_IPNS then c.putValueRouter
    else if mn == GET_IPNS then c.getValueRouter
    else if mn == FIND_PEERS then c.findPeersRouter
    else if mn == FIND_PROVIDERS then c.findProvidersRouter
    else if mn == PROVIDE then c.provideRouter
    else None
  }

  function Assign(c: Composer, mn: string, router: Router): Composer {
    if mn == PUT_IPNS then c.(putValueRouter := Some(router))
    else if mn == GET_IPNS then c.(getValueRouter := Some(router))
    else if mn == FIND_PEERS then c.(findPeersRouter := Some(router))
    else if mn == FIND_PROVIDERS then c.(findProvidersRouter := Some(router))
    else if mn == PROVIDE then c.(provideRouter := Some(router))
    else c
  }

  lemma MethodNamesDiffer()
    ensures |PROVIDE| == 7 && |FIND_PROVIDERS| == 14 && |FIND_PEERS| == 10 && |GET_IPNS| == |PUT_IPNS| == 8
    ensures GET_IPNS[0] != PUT_IPNS[0]
  {}

  lemma AssignServes(c: Composer, mn: string, router: Router)
    requires Supported(mn)
    ensures Serves(Assign(c, mn, router), mn) == Some(router)
    ensures forall other :: other != mn ==> Serves(Assign(c, mn, router), other) == Serves(c, other)
  {
    MethodNamesDiffer();
  }

  /** Some method's router depends on one that the error describes. */
  ghost predicate RouterAtFault(cfg: Routers, methods: Methods, build: Build, e: Error) {
    exists mn, m :: mn in methods && DependsOn(cfg, methods[mn], m) && Blames(cfg, build, {}, e, m)
  }

  /** The field is the router of the method called `mn`. */
  ghost predicate IsRouterOf(cfg: Routers, methods: Methods, build: Build, mn: string, field: Option<Router>) {
    mn in methods && field.Some? && Expand(cfg, build, methods[mn], {}) == Ok(field.value)
  }

  lemma FieldsByName(c: Composer)
    ensures Serves(c, "put-ipns") == c.putValueRouter && Serves(c, "get-ipns") == c.getValueRouter
    ensures Serves(c, "find-peers") == c.findPeersRouter && Serves(c, "find-providers") == c.findProvidersRouter
    ensures Serves(c, "provide") == c.provideRouter
  {
    MethodNamesDiffer();
  }

  lemma FiveMethods(methods: Methods)
    requires forall name :: name in methods <==> Supported(name)
    ensures methods.Keys == {"provide", "find-peers", "find-providers", "get-ipns", "put-ipns"}
  {}

  /**
   Parse: succeeds exactly when the methods are the supported ones and every router they need can be constructed. Each
   field is then the expansion of its method's router, whatever order the methods were taken in.
   */
  method Parse(cfg: Routers, methods: Methods, build: Build) returns (r: Result<Composer, Error>)
    ensures r.Ok? <==>
            && (forall name :: name in methods <==> Supported(name))
            && (forall mn :: mn in methods ==> Constructible(cfg, build, methods[mn]))
    ensures r.Err? ==> if forall name :: name in methods <==>
              Supported(name) then RouterAtFault(cfg, methods, build, r.error)
                       else MethodsAtFault(methods, r.error)
    ensures r.Ok? ==>
              forall mn :: Supported(mn) ==> mn in methods && Served(cfg, build, methods[mn], Serves(r.value, mn))
    ensures r.Ok? ==>
              && methods.Keys == {"provide", "find-peers", "find-providers", "get-ipns", "put-ipns"}
              && IsRouterOf(cfg, methods, build, "get-ipns", r.value.getValueRouter)
              && IsRouterOf(cfg, methods, build, "put-ipns", r.value.putValueRouter)
              && IsRouterOf(cfg, methods, build, "find-peers", r.value.findPeersRouter)
              && IsRouterOf(cfg, methods, build, "find-providers", r.value.findProvidersRouter)
              && IsRouterOf(cfg, methods, build, "provide", r.value.provideRouter)
  {
    var bad := Check(methods);
    if bad.Some? {
      return Err(bad.value);
    }
    var parser := new Parser(cfg, build);
    var final := Composer(None, None, None, None, None);
    var todo := methods.Keys;
    while todo != {}
      invariant todo <= methods.Keys && parser.Valid()
      invariant parser.cfg == cfg && parser.build == build
      invariant forall mn :: mn in methods && mn !in todo ==> Served(cfg, build, methods[mn], Serves(final, mn))
      decreases todo
    {
      var mn :| mn in todo;
      todo := todo - {mn};
      parser.visited := {};
      assert parser.Chain() == {};
      var router := parser.Parse(methods[mn]);
      if router.Err? {
        ExpandIff(cfg, build, methods[mn]);
        ghost var m := ErrorsAreTrue(cfg, build, methods[mn], {});
        return Err(router.error);
      }
      AssignServes(final, mn, router.value);
      final := Assign(final, mn, router.value);
    }
    forall mn | mn in methods
      ensures Constructible(cfg, build, methods[mn])
    {
      ExpandIff(cfg, build, methods[mn]);
    }
    FieldsByName(final);
    FiveMethods(methods);
    return Ok(final);
  }
}
