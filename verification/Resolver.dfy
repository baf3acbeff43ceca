/**
The dependency search of the SBOM resolver: depth-first over what pkg-config
knows, with a set of finished packages, the set of packages on the way, and a
limit on the depth.
*/
module Resolver {

  type Edge = (string, string)

  /** What pkg-config answers: required packages, linked libraries, and which of those it knows. */
  datatype PcCache = PcCache(requires_: map<string, set<string>>, libs: map<string, set<string>>, known: set<string>)
  {
    function Libs(pkg: string): set<string> { if pkg in libs then libs[pkg] else {} }

    /** Packages a package depends on directly, which are searched in turn. */
    function Children(pkg: string): set<string> {
      (if pkg in requires_ then requires_[pkg] else {}) + (Libs(pkg) * known)
    }

    function SystemLibs(pkg: string): set<string> { Libs(pkg) - known }
  }

  function WithPrefix(lib: string): string {
    if "lib" <= lib then lib else "lib" + lib
  }

  /** Dependency pairs; pairs with an empty name are not recorded. */
  function PairsTo(pkg: string, names: set<string>): set<Edge> {
    set n | n in names && n != "" && pkg != "" :: (pkg, n)
  }

  function Prefixed(libs: set<string>): set<string> { set lib | lib in libs :: WithPrefix(lib) }

  /** The dependency pairs of a package. */
  function Pairs(pc: PcCache, pkg: string): set<Edge> {
    PairsTo(pkg, pc.Children(pkg) + Prefixed(pc.SystemLibs(pkg)))
  }

  // ----- the pairs by what pkg-config answers -----

  predicate Needs(pc: PcCache, p: string, q: string) { p in pc.requires_ && q in pc.requires_[p] }

  predicate Links(pc: PcCache, p: string, lib: string) { p in pc.libs && lib in pc.libs[p] }

  predicate StartsWithLib(lib: string) { |lib| >= 3 && lib[0] == 'l' && lib[1] == 'i' && lib[2] == 'b' }

  /** A package leads on to what it requires and to the linked libraries that pkg-config knows. */
  lemma ChildrenAre(pc: PcCache, p: string, q: string)
    ensures q in pc.Children(p) <==> Needs(pc, p, q) || (Links(pc, p, q) && q in pc.known)
  {
  }

  /** The dependency pairs: what is required, linked libraries that pkg-config knows under their own
      name, and the others with "lib" in front unless it is there already. */
  lemma PairsAre(pc: PcCache, p: string, q: string)
    ensures (p, q) in Pairs(pc, p) <==>
      && p != "" && q != ""
      && (|| Needs(pc, p, q)
          || (Links(pc, p, q) && q in pc.known)
          || (exists lib ::
                Links(pc, p, lib) && lib !in pc.known && q == if StartsWithLib(lib) then lib else "lib" + lib))
  {
    forall lib: string ensures WithPrefix(lib) == if StartsWithLib(lib) then lib else "lib" + lib {
      PrefixIs(lib);
    }
    if lib :| Links(pc, p, lib) && lib !in pc.known && q == if StartsWithLib(lib) then lib else "lib" + lib {
      assert lib in pc.SystemLibs(p) && q in Prefixed(pc.SystemLibs(p));
    }
    if q in Prefixed(pc.SystemLibs(p)) {
      var lib :| lib in pc.SystemLibs(p) && q == WithPrefix(lib);
      assert Links(pc, p, lib);
    }
  }

  lemma PrefixIs(lib: string)
    ensures "lib" <= lib <==> StartsWithLib(lib)
  {
    if StartsWithLib(lib) {
      assert lib[..3] == "lib";
    }
  }

  /** A way from package to package, each a child of the one before. */
  ghost predicate Chain(pc: PcCache, path: seq<string>) {
    forall i :: 0 <= i < |path| - 1 ==> path[i + 1] in pc.Children(path[i])
  }

  ghost predicate Simple(path: seq<string>) {
    forall i, j :: 0 <= i < j < |path| ==> path[i] != path[j]
  }

  ghost predicate From(pc: PcCache, seeds: set<string>, path: seq<string>) {
    path != [] && path[0] in seeds && Chain(pc, path)
  }

  ghost predicate Reachable(pc: PcCache, seeds: set<string>, pkg: string) {
    exists path :: From(pc, seeds, path) && path[|path| - 1] == pkg
  }

  /** No simple path from a seed has more than `depth` edges. */
  ghost predicate Within(pc: PcCache, seeds: set<string>, depth: int) {
    forall path :: From(pc, seeds, path) && Simple(path) ==> |path| - 1 <= depth
  }

  lemma ReachOn(pc: PcCache, seeds: set<string>, path: seq<string>, child: string)
    requires From(pc, seeds, path) && child in pc.Children(path[|path| - 1])
    ensures From(pc, seeds, path + [child])
    ensures Reachable(pc, seeds, child)
  {
    assert (path + [child])[|path|] == child;
  }

  /** What holds the seeds and with every package its children holds everything reachable. */
  lemma {:induction false} ClosedHoldsPath(pc: PcCache, seeds: set<string>, all: set<string>, path: seq<string>, n: nat)
    requires seeds <= all && From(pc, seeds, path) && n < |path|
    requires forall p :: p in all ==> pc.Children(p) <= all
    ensures path[n] in all
  {
    if n > 0 {
      ClosedHoldsPath(pc, seeds, all, path, n - 1);
      assert path[n - 1 + 1] in pc.Children(path[n - 1]);
    }
  }

  lemma ClosedHoldsReachable(pc: PcCache, seeds: set<string>, all: set<string>)
    requires seeds <= all && forall p :: p in all ==> pc.Children(p) <= all
    ensures forall p :: Reachable(pc, seeds, p) ==> p in all
  {
    forall p | Reachable(pc, seeds, p) ensures p in all {
      var path :| From(pc, seeds, path) && path[|path| - 1] == p;
      ClosedHoldsPath(pc, seeds, all, path, |path| - 1);
    }
  }

  lemma {:induction false} SimpleIsShort(path: seq<string>, all: set<string>)
    requires Simple(path) && forall i :: 0 <= i < |path| ==> path[i] in all
    ensures |path| <= |all|
    decreases |path|
  {
    if path != [] {
      var n := |path| - 1;
      SimpleIsShort(path[..n], all - {path[n]});
    }
  }

  /** A depth limit of one less than the number of packages is always enough. */
  lemma FewPackagesSuffice(pc: PcCache, seeds: set<string>, all: set<string>, maxDepth: int)
    requires seeds <= all && (forall p :: p in all ==> pc.Children(p) <= all) && |all| <= maxDepth + 1
    ensures Within(pc, seeds, maxDepth)
  {
    forall path | From(pc, seeds, path) && Simple(path) ensures |path| - 1 <= maxDepth {
      forall i | 0 <= i < |path| ensures path[i] in all {
        ClosedHoldsPath(pc, seeds, all, path, i);
      }
      SimpleIsShort(path, all);
    }
  }

  class Search {
    const pc: PcCache
    const maxDepth: int
    ghost const seeds: set<string>
    var visited: set<string>
    var stack: set<string>
    var edges: set<Edge>

    /** Everything found is there to be found, and finished packages have all their pairs. */
    ghost predicate Sound()
      reads this
    {
      && (forall p :: p in visited ==> Reachable(pc, seeds, p) && Pairs(pc, p) <= edges)
      && (forall e :: e in edges ==> Reachable(pc, seeds, e.0) && e in Pairs(pc, e.0))
    }

    /** Children of finished packages are finished or on the way. */
    ghost predicate Closed()
      reads this
    {
      forall p :: p in visited ==> pc.Children(p) <= visited + stack
    }

    /** The stack holds the packages of a simple path from a seed. */
    ghost predicate OnPath(path: seq<string>)
      reads this
    {
      && (path != [] ==> From(pc, seeds, path)) && Simple(path)
      && forall p :: p in stack <==> p in path
    }

    constructor (pc: PcCache, maxDepth: int, ghost seeds: set<string>)
      ensures this.pc == pc && this.maxDepth == maxDepth && this.seeds == seeds
      ensures visited == stack == {} && edges == {}
    {
      this.pc, this.maxDepth, this.seeds := pc, maxDepth, seeds;
      visited, stack, edges := {}, {}, {};
    }

    method AddEdge(parent: string, child: string)
      modifies `edges
      ensures edges == old(edges) + PairsTo(parent, {child})
    {
      if parent != "" && child != "" {
        edges := edges + {(parent, child)};
      }
    }

    /** The search from a package at the end of a path.  Whatever the depth limit, what it finds is
        sound; if no simple path is too long, it also finishes everything it comes across. */
    method SearchPkg(pkg: string, depth: nat, ghost path: seq<string>)
      requires Sound() && OnPath(path) && |path| == depth && From(pc, seeds, path + [pkg])
      modifies this
      ensures Sound() && stack == old(stack) && old(visited) <= visited && old(edges) <= edges
      ensures old(Closed()) && Within(pc, seeds, maxDepth) ==> Closed() && pkg in visited + stack
      decreases maxDepth + 1 - depth, 2
    {
      if depth > maxDepth || pkg in stack {
        if pkg !in stack {
          TooDeep(path, pkg);
        }
        return;
      }
      assert Reachable(pc, seeds, pkg) by {
        assert (path + [pkg])[|path|] == pkg;
      }
      stack := stack + {pkg};
      SearchChildren(pkg, depth, path + [pkg]);
      AddSystemLibs(pkg);
      stack := stack - {pkg};
      visited := visited + {pkg};
    }

    /** A package off the stack below the depth limit is at the end of a simple path that is too long. */
    lemma TooDeep(path: seq<string>, pkg: string)
      requires OnPath(path) && From(pc, seeds, path + [pkg]) && pkg !in stack && |path| > maxDepth
      ensures !Within(pc, seeds, maxDepth)
    {
      assert Simple(path + [pkg]);
    }

    method SearchChildren(pkg: string, depth: nat, ghost path: seq<string>)
      requires Sound() && OnPath(path) && |path| == depth + 1 && path[depth] == pkg && depth <= maxDepth
      modifies this
      ensures Sound() && stack == old(stack) && old(visited) <= visited && old(edges) <= edges
      ensures PairsTo(pkg, pc.Children(pkg)) <= edges
      ensures old(Closed()) && Within(pc, seeds, maxDepth) ==> Closed() && pc.Children(pkg) <= visited + stack
      decreases maxDepth + 1 - depth, 1
    {
      var todo := pc.Children(pkg);
      ghost var done := {};
      ghost var complete := Closed() && Within(pc, seeds, maxDepth);
      while todo != {}
        invariant Sound() && stack == old(stack) && old(visited) <= visited && old(edges) <= edges
        invariant done + todo == pc.Children(pkg)
        invariant forall c :: c in done ==> PairsTo(pkg, {c}) <= edges
        invariant complete ==> Closed() && done <= visited + stack
        decreases |todo|
      {
        var child :| child in todo;
        SearchChild(pkg, child, depth, path);
        todo, done := todo - {child}, done + {child};
      }
      forall e | e in PairsTo(pkg, done) ensures e in edges {
        assert e in PairsTo(pkg, {e.1});
      }
    }

    method SearchChild(pkg: string, child: string, depth: nat, ghost path: seq<string>)
      requires Sound() && OnPath(path) && |path| == depth + 1 && path[depth] == pkg && depth <= maxDepth
      requires child in pc.Children(pkg)
      modifies this
      ensures Sound() && stack == old(stack) && old(visited) <= visited && old(edges) <= edges
      ensures PairsTo(pkg, {child}) <= edges
      ensures old(Closed()) && Within(pc, seeds, maxDepth) ==> Closed() && child in visited + stack
      decreases maxDepth + 1 - depth, 0
    {
      AddEdge(pkg, child);
      ReachOn(pc, seeds, path, child);
      assert Reachable(pc, seeds, pkg);
      if child !in visited {
        SearchPkg(child, depth + 1, path);
      }
    }

    method AddSystemLibs(pkg: string)
      requires Sound() && Reachable(pc, seeds, pkg)
      modifies `edges
      ensures Sound() && old(edges) <= edges && PairsTo(pkg, Prefixed(pc.SystemLibs(pkg))) <= edges
    {
      var todo := pc.SystemLibs(pkg);
      while todo != {}
        invariant todo <= pc.SystemLibs(pkg) && Sound() && old(edges) <= edges
        invariant forall lib :: lib in pc.SystemLibs(pkg) - todo ==> PairsTo(pkg, {WithPrefix(lib)}) <= edges
        decreases |todo|
      {
        var lib :| lib in todo;
        assert WithPrefix(lib) in Prefixed(pc.SystemLibs(pkg));
        AddEdge(pkg, WithPrefix(lib));
        todo := todo - {lib};
      }
      forall e | e in PairsTo(pkg, Prefixed(pc.SystemLibs(pkg))) ensures e in edges {
        var lib :| lib in pc.SystemLibs(pkg) && e.1 == WithPrefix(lib);
        assert e in PairsTo(pkg, {WithPrefix(lib)});
      }
    }
  }

  /** A sound search that is closed has found exactly what there is. */
  lemma ClosedIsExact(pc: PcCache, seeds: set<string>, visited: set<string>, edges: set<Edge>)
    requires seeds <= visited && forall p :: p in visited ==> pc.Children(p) <= visited
    requires forall p :: p in visited ==> Reachable(pc, seeds, p) && Pairs(pc, p) <= edges
    requires forall e :: e in edges ==> Reachable(pc, seeds, e.0) && e in Pairs(pc, e.0)
    ensures forall p :: Reachable(pc, seeds, p) <==> p in visited
    ensures forall e: Edge :: Reachable(pc, seeds, e.0) && e in Pairs(pc, e.0) <==> e in edges
  {
    ClosedHoldsReachable(pc, seeds, visited);
  }

  lemma SeedsOn(order: seq<string>, i: nat)
    requires i < |order|
    ensures Seeds(order[..i + 1]) == Seeds(order[..i]) + {order[i]}
  {
    assert order[..i + 1] == order[..i] + [order[i]];
  }

  /** build_pkg_graph_recursive: the search from every seed, each with an empty stack. */
  method BuildGraph(pc: PcCache, order: seq<string>, maxDepth: int) returns (visited: set<string>, edges: set<Edge>)
    ensures forall p :: p in visited ==> Reachable(pc, Seeds(order), p) && Pairs(pc, p) <= edges
    ensures forall e :: e in edges ==> Reachable(pc, Seeds(order), e.0) && e in Pairs(pc, e.0)
    ensures Within(pc, Seeds(order), maxDepth) ==>
      && (forall p :: Reachable(pc, Seeds(order), p) <==> p in visited)
      && (forall e: Edge :: Reachable(pc, Seeds(order), e.0) && e in Pairs(pc, e.0) <==> e in edges)
  {
    var search := new Search(pc, maxDepth, Seeds(order));
    var i := 0;
    while i < |order|
      invariant 0 <= i <= |order| && search.Sound() && search.stack == {}
      invariant Within(pc, Seeds(order), maxDepth) ==> search.Closed() && Seeds(order[..i]) <= search.visited
      modifies search
    {
      if order[i] !in search.visited {
        search.SearchPkg(order[i], 0, []);
      }
      SeedsOn(order, i);
      i := i + 1;
    }
    assert order[..i] == order;
    if Within(pc, Seeds(order), maxDepth) {
      ClosedIsExact(pc, Seeds(order), search.visited, search.edges);
    }
    return search.visited, search.edges;
  }

  function Seeds(order: seq<string>): set<string> { set p | p in order }
}
