/** Graphs of packages, by name, and what can be reached in them. */
module Reachability {

  /** The packages next to each package; a package without an entry has none. */
  type Graph = map<string, set<string>>

  function Next(graph: Graph, package: string): set<string> {
    if package in graph then graph[package] else {}
  }

  /** Whether `path` leads from one package to another, step by step. */
  predicate Walk(graph: Graph, start: string, end: string, path: seq<string>)
    decreases |path|
  {
    if path == [] then start == end
    else path[0] in Next(graph, start) && Walk(graph, path[0], end, path[1..])
  }

  ghost predicate Reaches(graph: Graph, start: string, end: string) {
    exists path: seq<string> :: Walk(graph, start, end, path)
  }

  ghost predicate ReachedFrom(graph: Graph, starts: set<string>, end: string) {
    exists start :: start in starts && Reaches(graph, start, end)
  }

  /** Every package that a step leads to. */
  function Targets(graph: Graph): set<string> {
    set package, next | package in graph && next in graph[package] :: next
  }

  predicate Closed(graph: Graph, reached: set<string>) {
    forall package :: package in reached ==> Next(graph, package) <= reached
  }

  /**
   What a worklist keeps: it holds the starts and only what they reach, and the packages next to any
   but those `pending` and those `visited` now.
   */
  ghost predicate Worklist(graph: Graph, starts: set<string>, reached: set<string>, pending: seq<string>,
                           visited: set<string>)
  {
    && starts <= reached <= starts + Targets(graph)
    && visited <= reached
    && (forall package :: package in pending ==> package in reached)
    && (forall package :: package in reached && package !in pending && package !in visited ==>
          Next(graph, package) <= reached)
    && (forall package :: package in reached ==> ReachedFrom(graph, starts, package))
  }

  lemma StartWorklist(graph: Graph, starts: set<string>, pending: seq<string>)
    requires forall package :: package in pending <==> package in starts
    ensures Worklist(graph, starts, starts, pending, {})
  {
    forall package | package in starts
      ensures ReachedFrom(graph, starts, package)
    {
      ReachesItself(graph, package);
    }
  }

  lemma Visit(graph: Graph, starts: set<string>, reached: set<string>, pending: seq<string>)
    requires pending != [] && Worklist(graph, starts, reached, pending, {})
    ensures Worklist(graph, starts, reached, pending[..|pending| - 1], {pending[|pending| - 1]})
  {
    assert pending == pending[..|pending| - 1] + [pending[|pending| - 1]];
  }

  lemma Add(graph: Graph, starts: set<string>, reached: set<string>, pending: seq<string>, visited: string,
            next: string)
    requires Worklist(graph, starts, reached, pending, {visited}) && next in Next(graph, visited)
    ensures Worklist(graph, starts, reached + {next}, pending + [next], {visited})
  {
    ReachedFurther(graph, starts, visited, next);
  }

  lemma Visited(graph: Graph, starts: set<string>, reached: set<string>, pending: seq<string>, visited: string)
    requires Worklist(graph, starts, reached, pending, {visited}) && Next(graph, visited) <= reached
    ensures Worklist(graph, starts, reached, pending, {})
  {
  }

  lemma WorklistIsReached(graph: Graph, starts: set<string>, reached: set<string>)
    requires Worklist(graph, starts, reached, [], {})
    ensures forall package :: package in reached <==> ReachedFrom(graph, starts, package)
  {
    ClosedIsReached(graph, starts, reached);
  }

  lemma {:induction false} WalkFurther(graph: Graph, start: string, middle: string, end: string, path: seq<string>)
    requires Walk(graph, start, middle, path) && end in Next(graph, middle)
    ensures Walk(graph, start, end, path + [end])
    decreases |path|
  {
    if path == [] {
      assert (path + [end])[1..] == [];
    } else {
      WalkFurther(graph, path[0], middle, end, path[1..]);
      assert (path + [end])[1..] == path[1..] + [end];
    }
  }

  lemma ReachesItself(graph: Graph, package: string)
    ensures Reaches(graph, package, package)
  {
    assert Walk(graph, package, package, []);
  }

  lemma ReachedFurther(graph: Graph, starts: set<string>, middle: string, end: string)
    requires ReachedFrom(graph, starts, middle) && end in Next(graph, middle)
    ensures ReachedFrom(graph, starts, end)
  {
    var start :| start in starts && Reaches(graph, start, middle);
    var path :| Walk(graph, start, middle, path);
    WalkFurther(graph, start, middle, end, path);
  }

  lemma {:induction false} ClosedHolds(graph: Graph, reached: set<string>, start: string, end: string,
        path: seq<string>)
    requires Closed(graph, reached) && start in reached && Walk(graph, start, end, path)
    ensures end in reached
    decreases |path|
  {
    if path != [] {
      ClosedHolds(graph, reached, path[0], end, path[1..]);
    }
  }

  /** A closed set that holds the starts and only what they reach holds exactly that. */
  lemma ClosedIsReached(graph: Graph, starts: set<string>, reached: set<string>)
    requires starts <= reached && Closed(graph, reached)
    requires forall package :: package in reached ==> ReachedFrom(graph, starts, package)
    ensures forall package :: package in reached <==> ReachedFrom(graph, starts, package)
  {
    forall package | ReachedFrom(graph, starts, package)
      ensures package in reached
    {
      var start :| start in starts && Reaches(graph, start, package);
      var path :| Walk(graph, start, package, path);
      ClosedHolds(graph, reached, start, package, path);
    }
  }

  /** The packages that may still be reached. */
  function Left(graph: Graph, starts: set<string>, reached: set<string>): set<string> {
    starts + Targets(graph) - reached
  }

  lemma LeftShrinks(graph: Graph, starts: set<string>, known: set<string>, reached: set<string>,
                    pending: seq<string>, visited: set<string>)
    requires Worklist(graph, starts, reached, pending, visited) && known <= reached
    ensures known == reached || Left(graph, starts, reached) < Left(graph, starts, known)
  {
    if known != reached {
      var more :| more in reached && more !in known;
      assert more in Left(graph, starts, known) && more !in Left(graph, starts, reached);
    }
  }

  /** Whether `inverse` has every step of `graph`, the other way, and no other. */
  ghost predicate Inverse(graph: Graph, inverse: Graph) {
    forall package, next :: next in Next(graph, package) <==> package in Next(inverse, next)
  }

  lemma {:induction false} WalkBack(graph: Graph, inverse: Graph, start: string, end: string, path: seq<string>)
    requires Inverse(graph, inverse) && Walk(graph, start, end, path)
    ensures Reaches(inverse, end, start)
    decreases |path|
  {
    if path == [] {
      ReachesItself(inverse, start);
    } else {
      WalkBack(graph, inverse, path[0], end, path[1..]);
      var back :| Walk(inverse, end, path[0], back);
      WalkFurther(inverse, end, path[0], start, back);
    }
  }

  lemma ReachesBack(graph: Graph, inverse: Graph, start: string, end: string)
    requires Inverse(graph, inverse)
    ensures Reaches(graph, start, end) <==> Reaches(inverse, end, start)
  {
    if Reaches(graph, start, end) {
      var path :| Walk(graph, start, end, path);
      WalkBack(graph, inverse, start, end, path);
    }
    if Reaches(inverse, end, start) {
      var path :| Walk(inverse, end, start, path);
      WalkBack(inverse, graph, end, start, path);
    }
  }
}

/**
 `crates/check-changed/src/workspace.rs`: the repository's dependency graph, the packages that depend
 on each package, and those each end-to-end suite builds.
 */
module PackageGraph {
  import opened Reachability
  import opened Wrappers

  datatype Suite = Pane | Page

  datatype Dependency = Dependency(name: string, built: bool)

  datatype Packages = Packages(
    packages: map<string, string>, members: set<string>, dependencies: map<string, seq<Dependency>>)

  datatype Workspace = Workspace(
    packages: map<string, string>, members: set<string>, dependents: Graph, built: map<Suite, set<string>>)

  datatype Failure = NoPackage(root: string)

  const PANE_ROOT := "reviewer"
  const PAGE_ROOT := "review-explore-page-server"

  /** The dependencies of each package, of any kind. */
  function AnyKind(dependencies: map<string, seq<Dependency>>): Graph {
    map package | package in dependencies ::
      set i | 0 <= i < |dependencies[package]| :: dependencies[package][i].name
  }

  /** The dependencies built into each package. */
  function BuiltInto(dependencies: map<string, seq<Dependency>>): Graph {
    map package | package in dependencies ::
      set i | 0 <= i < |dependencies[package]| && dependencies[package][i].built :: dependencies[package][i].name
  }

  function WithDependent(dependents: Graph, name: string, package: string): Graph {
    dependents[name := Next(dependents, name) + {package}]
  }

  /** For each package, the packages that depend on it: the dependency graph the other way. */
  method Dependents(dependencies: map<string, seq<Dependency>>) returns (dependents: Graph)
    ensures Inverse(AnyKind(dependencies), dependents)
    ensures forall name :: name in dependents ==> dependents[name] != {}
  {
    dependents := map[];
    var left := dependencies.Keys;
    while left != {}
      invariant left <= dependencies.Keys
      invariant forall name :: name in dependents ==> dependents[name] != {}
      invariant forall name, package :: package in Next(dependents, name)
                  <==> package !in left && name in Next(AnyKind(dependencies), package)
      decreases left
    {
      var package :| package in left;
      left := left - {package};
      ghost var before := dependents;
      var listed := dependencies[package];
      for i := 0 to |listed|
        invariant forall name :: name in dependents ==> dependents[name] != {}
        invariant forall name :: Next(dependents, name)
                    == Next(before, name) + if exists k :: 0 <= k < i && listed[k].name == name then {package} else {}
      {
        dependents := WithDependent(dependents, listed[i].name, package);
      }
      forall name
        ensures package in Next(dependents, name) <==> name in Next(AnyKind(dependencies), package)
      {
      }
    }
  }

  /** A step of the graphs leads to what the package lists as its dependencies, built or of any kind. */
  lemma {:induction false} NextBuilt(dependencies: map<string, seq<Dependency>>, package: string)
    ensures var listed := if package in dependencies then dependencies[package] else [];
      && (forall k :: 0 <= k < |listed| && listed[k].built ==>
            listed[k].name in Next(BuiltInto(dependencies), package))
      && (forall name :: name in Next(BuiltInto(dependencies), package) ==>
            exists k :: 0 <= k < |listed| && listed[k].built && listed[k].name == name)
      && (forall name :: name in Next(AnyKind(dependencies), package) <==>
            exists k :: 0 <= k < |listed| && listed[k].name == name)
  {
  }

  /** Adds what is built into `package` to the packages built, those new also to the pending ones. */
  method AddBuiltInto(dependencies: map<string, seq<Dependency>>, ghost root: string, package: string,
                      known: set<string>, waiting: seq<string>)
    returns (built: set<string>, pending: seq<string>)
    requires Worklist(BuiltInto(dependencies), {root}, known, waiting, {package})
    ensures Worklist(BuiltInto(dependencies), {root}, built, pending, {})
    ensures var graph := BuiltInto(dependencies);
      (built == known && pending == waiting) || Left(graph, {root}, built) < Left(graph, {root}, known)
  {
    hide Worklist, Left, Next, BuiltInto;
    ghost var graph := BuiltInto(dependencies);
    built, pending := known, waiting;
    var listed := if package in dependencies then dependencies[package] else [];
    NextBuilt(dependencies, package);
    for i := 0 to |listed|
      invariant Worklist(graph, {root}, built, pending, {package})
      invariant known <= built && (built == known ==> pending == waiting)
      invariant forall k :: 0 <= k < i && listed[k].built ==> listed[k].name in built
    {
      var dependency := listed[i];
      if dependency.built && dependency.name !in built {
        assert dependency.name in Next(graph, package);
        Add(graph, {root}, built, pending, package, dependency.name);
        built, pending := built + {dependency.name}, pending + [dependency.name];
      }
    }
    Visited(graph, {root}, built, pending, package);
    LeftShrinks(graph, {root}, known, built, pending, {});
  }

  /** `root` and every package built into it, through any number of others. */
  method BuiltBy(dependencies: map<string, seq<Dependency>>, root: string)
    returns (r: Result<set<string>, Failure>)
    ensures root !in dependencies ==> r == Err(NoPackage(root))
    ensures root in dependencies ==>
      r.Ok? && forall package :: package in r.value <==> Reaches(BuiltInto(dependencies), root, package)
  {
    if root !in dependencies {
      return Err(NoPackage(root));
    }
    hide Worklist, ReachedFrom, Reaches, Left, BuiltInto;
    ghost var graph := BuiltInto(dependencies);
    var built, pending := {root}, [root];
    StartWorklist(graph, {root}, pending);
    while pending != []
      invariant Worklist(graph, {root}, built, pending, {})
      decreases Left(graph, {root}, built), |pending|
    {
      Visit(graph, {root}, built, pending);
      var package := pending[|pending| - 1];
      built, pending := AddBuiltInto(dependencies, root, package, built, pending[..|pending| - 1]);
    }
    WorklistIsReached(graph, {root}, built);
    return Ok(built);
  }

  /** What `Read` makes of the dependency graphs of the repository and of the pane's harness. */
  ghost predicate IsWorkspaceOf(workspace: Workspace, graph: Packages, harness: set<string>) {
    && workspace.packages == graph.packages
    && workspace.members == graph.members
    && Inverse(AnyKind(graph.dependencies), workspace.dependents)
    && workspace.built.Keys == {Pane, Page}
    && (forall package :: package in workspace.built[Pane]
          <==> package in harness || Reaches(BuiltInto(graph.dependencies), PANE_ROOT, package))
    && (forall package :: package in workspace.built[Page]
          <==> Reaches(BuiltInto(graph.dependencies), PAGE_ROOT, package))
  }

  method Read(graph: Packages, harness: Packages) returns (r: Result<Workspace, Failure>)
    ensures r.Ok? <==> PANE_ROOT in graph.dependencies && PAGE_ROOT in graph.dependencies
    ensures r.Ok? ==> IsWorkspaceOf(r.value, graph, harness.dependencies.Keys)
  {
    var pane := BuiltBy(graph.dependencies, PANE_ROOT);
    if pane.Err? {
      return Err(pane.error);
    }
    var page := BuiltBy(graph.dependencies, PAGE_ROOT);
    if page.Err? {
      return Err(page.error);
    }
    var dependents := Dependents(graph.dependencies);
    var built := map[Pane := pane.value + harness.dependencies.Keys, Page := page.value];
    return Ok(Workspace(graph.packages, graph.members, dependents, built));
  }
}
