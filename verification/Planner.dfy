/**
 `crates/check-changed/src/plan.rs`: which checks the changed files reach.

 `Checks` says what a plan is in terms of chains of dependencies, without a worklist; `Plan` is proved
 to make exactly it.
 */
module Planner {
  import opened PackageGraph
  import opened Reachability
  import opened Wrappers

  datatype Check = Lint | UnitTests(packages: set<string>) | AllUnitTests | EndToEnd(suite: Suite)

  /** What a changed file belongs to. */
  datatype Owner = OfPackage(name: string) | OfSuite(suite: Suite) | Nothing | Lock | Everything | Unmapped

  /** The changed files, and the packages of `Cargo.lock` that changed, when they could be read. */
  datatype Changes = Changes(paths: seq<string>, locked: Option<set<string>>)

  /** Why checks run: every one, or those for what changed, or none. */
  datatype Reason =
    | UnreadableLock
    | ReachesEverything(path: string)
    | NotMapped(path: string)
    | PackagesChanged(packages: set<string>)
    | HarnessChanged(suite: Suite)
    | BuildsChanged(suite: Suite)
    | NothingRead

  datatype Owners = Owners(packages: set<string>, suites: set<Suite>, runEverything: seq<Reason>)

  const ALL: seq<Suite> := [Pane, Page]

  // The files.

  const EVERYTHING: seq<string> := ["Cargo.toml", "nix/", "Makefile", ".config/"]

  const SUITES: seq<(string, Suite)> := [("tests/tui/", Pane), ("tests/explore-page/", Page)]

  const NOTHING: seq<string> := [
    "docs/", ".agents/", ".claude/", "scripts/", "LICENSE", ".gitignore", ".envrc", ".mcp.json", "herdr-plugin.toml"
  ]

  predicate EndsWith(s: string, end: char) {
    s != "" && s[|s| - 1] == end
  }

  predicate MatchesRule(path: string, rule: string) {
    if EndsWith(rule, '/') then rule <= path else path == rule
  }

  predicate MatchesAny(path: string, rules: seq<string>) {
    exists i :: 0 <= i < |rules| && MatchesRule(path, rules[i])
  }

  /** Where the last `c` of `s` is; -1 when there is none. */
  function LastIndex(s: string, c: char): (i: int)
    ensures -1 <= i < |s| && (forall k :: i < k < |s| ==> s[k] != c)
    ensures i >= 0 ==> s[i] == c
  {
    if s == "" then -1
    else if s[|s| - 1] == c then |s| - 1
    else LastIndex(s[..|s| - 1], c)
  }

  /** A path's last component, when it is a name: `/` and `/.` at its end are not part of it. */
  function FileName(path: string): Option<string>
    decreases |path|
  {
    var slash := LastIndex(path, '/');
    var last := path[slash + 1..];
    if slash >= 0 && (last == "" || last == ".") then FileName(path[..slash])
    else if last in {"", ".", ".."} then None
    else Some(last)
  }

  /** What follows the last dot of a path's name, unless the dot starts the name. */
  function Extension(path: string): Option<string> {
    match FileName(path)
    case None => None
    case Some(name) =>
      var dot := LastIndex(name, '.');
      if dot <= 0 then None else Some(name[dot + 1..])
  }

  predicate IsMarkdown(path: string) {
    match Extension(path)
    case None => false
    case Some(extension) => |extension| == 2 && extension[0] in "mM" && extension[1] in "dD"
  }

  predicate InCrates(path: string) {
    "crates/" <= path || "vendor/" <= path
  }

  predicate IsUnder(path: string, directory: string) {
    directory + "/" <= path
  }

  /** The innermost of the directories in `packages` that holds `path`, among those of at most `n` characters. */
  function Innermost(packages: map<string, string>, path: string, n: nat): (directory: Option<string>)
    requires n <= |path|
    ensures directory.Some? ==> directory.value in packages && IsUnder(path, directory.value)
    ensures directory.Some? ==>
      forall other :: other in packages && IsUnder(path, other) && |other| <= n ==> |other| <= |directory.value|
    ensures directory == None ==> forall other :: other in packages && |other| <= n ==> !IsUnder(path, other)
  {
    if n < |path| && path[n] == '/' && path[..n] in packages then
      assert path[..n] + "/" == path[..n + 1];
      Some(path[..n])
    else
      assert forall other :: other in packages && |other| == n && IsUnder(path, other) ==> other == path[..n];
      if n == 0 then None else Innermost(packages, path, n - 1)
  }

  /** The package whose directory holds a path, the innermost one. */
  function InnermostPackage(packages: map<string, string>, path: string): (name: Option<string>)
    ensures name.Some? ==> name.value in packages.Values
  {
    match Innermost(packages, path, |path|)
    case None => None
    case Some(directory) => Some(packages[directory])
  }

  function OwnerOf(packages: map<string, string>, path: string): Owner {
    if path == "Cargo.lock" then Lock
    else if MatchesAny(path, EVERYTHING) then Everything
    else if IsMarkdown(path) && !InCrates(path) then Nothing
    else if MatchesRule(path, SUITES[0].0) then OfSuite(SUITES[0].1)
    else if MatchesRule(path, SUITES[1].0) then OfSuite(SUITES[1].1)
    else
      match InnermostPackage(packages, path)
      case Some(name) => OfPackage(name)
      case None => if MatchesAny(path, NOTHING) then Nothing else Unmapped
  }

  lemma CratesAreOnlyPackages(path: string)
    requires InCrates(path)
    ensures path != "Cargo.lock" && !MatchesAny(path, EVERYTHING)
    ensures !MatchesRule(path, SUITES[0].0) && !MatchesRule(path, SUITES[1].0)
  {
    assert path[0] == 'c' || path[0] == 'v';
    forall i | 0 <= i < |EVERYTHING|
      ensures !MatchesRule(path, EVERYTHING[i])
    {
      assert EVERYTHING[i][0] != 'c' && EVERYTHING[i][0] != 'v';
    }
  }

  lemma UnderIsLonger(path: string, directory: string)
    requires IsUnder(path, directory)
    ensures |directory| < |path|
  {
  }

  lemma SameDirectory(path: string, directory: string, other: string)
    requires IsUnder(path, directory) && IsUnder(path, other) && |directory| == |other|
    ensures directory == other
  {
    assert directory == path[..|directory|] && other == path[..|other|];
  }

  /** A file in a package's directory, of any kind, belongs to the innermost such package. */
  lemma {:induction false} InnermostPackageOwns(packages: map<string, string>, path: string, directory: string)
    requires InCrates(path) && directory in packages && IsUnder(path, directory)
    requires forall other :: other in packages && IsUnder(path, other) ==> |other| <= |directory|
    ensures OwnerOf(packages, path) == OfPackage(packages[directory])
  {
    hide MatchesAny, MatchesRule, IsMarkdown, IsUnder;
    CratesAreOnlyPackages(path);
    UnderIsLonger(path, directory);
    SameDirectory(path, directory, Innermost(packages, path, |path|).value);
  }

  // What the changed files reach.

  ghost predicate ChangesPackage(packages: map<string, string>, changes: Changes, name: string) {
    exists path :: path in changes.paths && OwnsPackage(OwnerOf(packages, path), changes.locked, name)
  }

  predicate OwnsPackage(owner: Owner, locked: Option<set<string>>, name: string) {
    owner == OfPackage(name) || (owner == Lock && locked.Some? && name in locked.value)
  }

  ghost predicate ChangesSuite(packages: map<string, string>, changes: Changes, suite: Suite) {
    exists path :: path in changes.paths && OwnerOf(packages, path) == OfSuite(suite)
  }

  predicate RunsAll(owner: Owner, locked: Option<set<string>>) {
    owner == Everything || owner == Unmapped || (owner == Lock && locked == None)
  }

  ghost predicate RunsEverything(packages: map<string, string>, changes: Changes) {
    exists path :: path in changes.paths && RunsAll(OwnerOf(packages, path), changes.locked)
  }

  function ReasonOf(owner: Owner, path: string): Reason {
    if owner == Lock then UnreadableLock
    else if owner == Everything then ReachesEverything(path)
    else NotMapped(path)
  }

  function Reasons(packages: map<string, string>, paths: seq<string>, locked: Option<set<string>>): seq<Reason> {
    if paths == [] then []
    else
      var path := paths[|paths| - 1];
      Reasons(packages, paths[..|paths| - 1], locked)
      + if RunsAll(OwnerOf(packages, path), locked) then [ReasonOf(OwnerOf(packages, path), path)] else []
  }

  method AddOwner(known: Owners, owner: Owner, path: string, locked: Option<set<string>>) returns (owners: Owners)
    ensures forall name :: name in owners.packages <==> name in known.packages || OwnsPackage(owner, locked, name)
    ensures forall suite :: suite in owners.suites <==> suite in known.suites || owner == OfSuite(suite)
    ensures owners.runEverything
         == known.runEverything + if RunsAll(owner, locked) then [ReasonOf(owner, path)] else []
  {
    owners := known;
    match owner {
      case OfPackage(name) => owners := owners.(packages := owners.packages + {name});
      case OfSuite(suite) => owners := owners.(suites := owners.suites + {suite});
      case Lock =>
        if locked.Some? {
          owners := owners.(packages := owners.packages + locked.value);
        } else {
          owners := owners.(runEverything := owners.runEverything + [UnreadableLock]);
        }
      case Nothing =>
      case Everything => owners := owners.(runEverything := owners.runEverything + [ReachesEverything(path)]);
      case Unmapped => owners := owners.(runEverything := owners.runEverything + [NotMapped(path)]);
    }
  }

  ghost predicate SortsOwners(packages: map<string, string>, changes: Changes, owners: Owners) {
    && (forall name :: name in owners.packages <==> ChangesPackage(packages, changes, name))
    && (forall suite :: suite in owners.suites <==> ChangesSuite(packages, changes, suite))
    && owners.runEverything == Reasons(packages, changes.paths, changes.locked)
    && (owners.runEverything != [] <==> RunsEverything(packages, changes))
  }

  lemma SortsOneMore(packages: map<string, string>, paths: seq<string>, path: string, locked: Option<set<string>>,
                     known: Owners, owners: Owners)
    requires SortsOwners(packages, Changes(paths, locked), known)
    requires var owner := OwnerOf(packages, path);
      && (forall name :: name in owners.packages <==> name in known.packages || OwnsPackage(owner, locked, name))
      && (forall suite :: suite in owners.suites <==> suite in known.suites || owner == OfSuite(suite))
      && owners.runEverything == known.runEverything + if RunsAll(owner, locked) then [ReasonOf(owner, path)] else []
    ensures SortsOwners(packages, Changes(paths + [path], locked), owners)
  {
    hide OwnerOf, OwnsPackage, RunsAll;
    assert (paths + [path])[..|paths|] == paths;
    assert forall other :: other in paths + [path] <==> other in paths || other == path;
  }

  /** Sorts the changed files by what they belong to. */
  method Of(packages: map<string, string>, changes: Changes) returns (owners: Owners)
    ensures SortsOwners(packages, changes, owners)
  {
    owners := Owners({}, {}, []);
    assert SortsOwners(packages, Changes([], changes.locked), owners);
    hide SortsOwners, OwnerOf;
    assert changes.paths[..0] == [];
    for i := 0 to |changes.paths|
      invariant SortsOwners(packages, Changes(changes.paths[..i], changes.locked), owners)
    {
      ghost var known := owners;
      var path := changes.paths[i];
      owners := AddOwner(owners, OwnerOf(packages, path), path, changes.locked);
      SortsOneMore(packages, changes.paths[..i], path, changes.locked, known, owners);
      assert changes.paths[..i + 1] == changes.paths[..i] + [path];
    }
    assert changes.paths[..|changes.paths|] == changes.paths;
  }

  /** Whether `package` changed or depends, through any number of others, on a package that changed. */
  ghost predicate DependsOnChange(workspace: Workspace, changes: Changes, package: string) {
    exists changed :: ChangesPackage(workspace.packages, changes, changed)
      && Reaches(workspace.dependents, changed, package)
  }

  ghost function Tested(workspace: Workspace, changes: Changes): set<string> {
    set package | package in workspace.members && DependsOnChange(workspace, changes, package)
  }

  ghost predicate BuildsChange(workspace: Workspace, changes: Changes, suite: Suite) {
    suite in workspace.built
    && exists package :: package in workspace.built[suite] && DependsOnChange(workspace, changes, package)
  }

  ghost predicate RunsSuite(workspace: Workspace, changes: Changes, suite: Suite) {
    ChangesSuite(workspace.packages, changes, suite) || BuildsChange(workspace, changes, suite)
  }

  function Unlinted(tested: set<string>, pane: bool, page: bool): seq<Check> {
    (if tested == {} then [] else [UnitTests(tested)])
    + (if pane then [EndToEnd(Pane)] else [])
    + (if page then [EndToEnd(Page)] else [])
  }

  /** The checks for some packages to test and suites to run, linting first when there is any. */
  function ListChecks(tested: set<string>, pane: bool, page: bool): seq<Check> {
    if tested == {} && !pane && !page then [] else [Lint] + Unlinted(tested, pane, page)
  }

  /** The checks a change reaches. */
  ghost function Checks(workspace: Workspace, changes: Changes): seq<Check> {
    if RunsEverything(workspace.packages, changes) then [Lint, AllUnitTests, EndToEnd(Pane), EndToEnd(Page)]
    else
      ListChecks(Tested(workspace, changes), RunsSuite(workspace, changes, Pane), RunsSuite(workspace, changes, Page))
  }

  /** The packages changed. */
  ghost function Changed(packages: map<string, string>, changes: Changes): set<string> {
    set name | name in packages.Values + (if changes.locked.Some? then changes.locked.value else {})
               && ChangesPackage(packages, changes, name)
  }

  ghost function SuiteReasons(workspace: Workspace, changes: Changes, suite: Suite): seq<Reason> {
    if ChangesSuite(workspace.packages, changes, suite) then [HarnessChanged(suite)]
    else if BuildsChange(workspace, changes, suite) then [BuildsChanged(suite)]
    else []
  }

  ghost function TestReasons(workspace: Workspace, changes: Changes): seq<Reason> {
    if Tested(workspace, changes) == {} then [] else [PackagesChanged(Changed(workspace.packages, changes))]
  }

  /** Why the checks of a change run. */
  ghost function PlanReasons(workspace: Workspace, changes: Changes): seq<Reason> {
    if RunsEverything(workspace.packages, changes) then Reasons(workspace.packages, changes.paths, changes.locked)
    else
      var reasons := TestReasons(workspace, changes)
                     + SuiteReasons(workspace, changes, Pane) + SuiteReasons(workspace, changes, Page);
      if reasons == [] then [NothingRead] else reasons
  }

  lemma ChangedIs(packages: map<string, string>, changes: Changes, names: set<string>)
    requires forall name :: name in names <==> ChangesPackage(packages, changes, name)
    ensures names == Changed(packages, changes)
  {
    forall name | name in names
      ensures name in packages.Values + (if changes.locked.Some? then changes.locked.value else {})
    {
      var path :| path in changes.paths && OwnsPackage(OwnerOf(packages, path), changes.locked, name);
      if OwnerOf(packages, path) == OfPackage(name) {
        OwnedIsPackage(packages, path, name);
      }
    }
  }

  lemma OwnedIsPackage(packages: map<string, string>, path: string, name: string)
    requires OwnerOf(packages, path) == OfPackage(name)
    ensures name in packages.Values
  {
    hide MatchesAny, MatchesRule, IsMarkdown, InCrates, InnermostPackage;
    assert InnermostPackage(packages, path) == Some(name);
  }

  method ListOf(packages: set<string>) returns (list: seq<string>)
    ensures forall package :: package in list <==> package in packages
  {
    list := [];
    var left := packages;
    while left != {}
      invariant left <= packages
      invariant forall package :: package in list <==> package in packages - left
      decreases left
    {
      var package :| package in left;
      list, left := list + [package], left - {package};
    }
  }

  method AddDependents(dependents: Graph, ghost packages: set<string>, package: string,
                       known: set<string>, waiting: seq<string>)
    returns (reached: set<string>, pending: seq<string>)
    requires Worklist(dependents, packages, known, waiting, {package})
    ensures Worklist(dependents, packages, reached, pending, {})
    ensures (reached == known && pending == waiting)
         || Left(dependents, packages, reached) < Left(dependents, packages, known)
  {
    hide Worklist, Left;
    reached, pending := known, waiting;
    var left := Next(dependents, package);
    while left != {}
      invariant Worklist(dependents, packages, reached, pending, {package})
      invariant known <= reached && (reached == known ==> pending == waiting)
      invariant left <= Next(dependents, package) <= reached + left
      decreases left
    {
      var dependent :| dependent in left;
      left := left - {dependent};
      if dependent !in reached {
        Add(dependents, packages, reached, pending, package, dependent);
        reached, pending := reached + {dependent}, pending + [dependent];
      }
    }
    Visited(dependents, packages, reached, pending, package);
    LeftShrinks(dependents, packages, known, reached, pending, {});
  }

  /** `packages` and every package that depends on one of them, through any number of others. */
  method Reached(dependents: Graph, packages: set<string>) returns (reached: set<string>)
    ensures forall package :: package in reached <==> ReachedFrom(dependents, packages, package)
  {
    hide Worklist, Left, ReachedFrom;
    reached := packages;
    var pending := ListOf(packages);
    StartWorklist(dependents, packages, pending);
    while pending != []
      invariant Worklist(dependents, packages, reached, pending, {})
      decreases Left(dependents, packages, reached), |pending|
    {
      Visit(dependents, packages, reached, pending);
      var package := pending[|pending| - 1];
      reached, pending := AddDependents(dependents, packages, package, reached, pending[..|pending| - 1]);
    }
    WorklistIsReached(dependents, packages, reached);
  }

  lemma ReachedIsDepending(workspace: Workspace, changes: Changes, packages: set<string>, reached: set<string>)
    requires forall name :: name in packages <==> ChangesPackage(workspace.packages, changes, name)
    requires forall package :: package in reached <==> ReachedFrom(workspace.dependents, packages, package)
    ensures forall package :: package in reached <==> DependsOnChange(workspace, changes, package)
  {
    hide ChangesPackage, Reaches;
  }

  /** The checks that `changes` reach, and why. */
  method Plan(workspace: Workspace, changes: Changes) returns (checks: seq<Check>, reasons: seq<Reason>)
    ensures checks == Checks(workspace, changes)
    ensures reasons == PlanReasons(workspace, changes)
  {
    hide ChangesPackage, ChangesSuite, DependsOnChange, RunsEverything, ReachedFrom, Reaches, Reasons, Changed;
    var owners := Of(workspace.packages, changes);
    reasons := owners.runEverything;
    if owners.runEverything != [] {
      return [Lint, AllUnitTests, EndToEnd(Pane), EndToEnd(Page)], reasons;
    }
    var reached := Reached(workspace.dependents, owners.packages);
    ReachedIsDepending(workspace, changes, owners.packages, reached);
    ChangedIs(workspace.packages, changes, owners.packages);
    var tested := reached * workspace.members;
    assert tested == Tested(workspace, changes);
    checks := [];
    if tested != {} {
      reasons := reasons + [PackagesChanged(owners.packages)];
      checks := checks + [UnitTests(tested)];
    }
    for i := 0 to |ALL|
      invariant checks == Unlinted(tested, i >= 1 && RunsSuite(workspace, changes, Pane),
                                   i >= 2 && RunsSuite(workspace, changes, Page))
      invariant reasons == TestReasons(workspace, changes)
                           + (if i >= 1 then SuiteReasons(workspace, changes, Pane) else [])
                           + (if i >= 2 then SuiteReasons(workspace, changes, Page) else [])
    {
      var suite := ALL[i];
      if suite in owners.suites {
        reasons := reasons + [HarnessChanged(suite)];
        checks := checks + [EndToEnd(suite)];
      } else if suite in workspace.built && !(reached !! workspace.built[suite]) {
        reasons := reasons + [BuildsChanged(suite)];
        checks := checks + [EndToEnd(suite)];
      }
    }
    if checks == [] {
      reasons := reasons + [NothingRead];
    } else {
      checks := [Lint] + checks;
    }
  }

  // What a plan covers.

  predicate TestsMember(workspace: Workspace, checks: seq<Check>, member: string) {
    member in workspace.members
    && (AllUnitTests in checks || exists i :: 0 <= i < |checks| && checks[i].UnitTests? && member in checks[i].packages)
  }

  /** A plan tests the members its change reaches, runs the suites its change reaches, and lints when it checks. */
  lemma {:induction false} PlanCovers(workspace: Workspace, changes: Changes)
    ensures var checks, everything := Checks(workspace, changes), RunsEverything(workspace.packages, changes);
      && (forall member :: TestsMember(workspace, checks, member)
            <==> member in workspace.members && (everything || DependsOnChange(workspace, changes, member)))
      && (forall suite :: EndToEnd(suite) in checks <==> everything || RunsSuite(workspace, changes, suite))
      && (Lint in checks <==> checks != [])
  {
    hide RunsEverything, DependsOnChange, RunsSuite;
    var checks := Checks(workspace, changes);
    if RunsEverything(workspace.packages, changes) {
      assert checks[0] == Lint && checks[1] == AllUnitTests;
      assert checks[2] == EndToEnd(Pane) && checks[3] == EndToEnd(Page);
    } else {
      ListedChecks(workspace, Tested(workspace, changes), RunsSuite(workspace, changes, Pane),
                   RunsSuite(workspace, changes, Page));
    }
    forall suite: Suite
      ensures EndToEnd(suite) in checks
         <==> RunsEverything(workspace.packages, changes) || RunsSuite(workspace, changes, suite)
    {
      assert suite.Pane? || suite.Page?;
    }
  }

  lemma ListedChecks(workspace: Workspace, tested: set<string>, pane: bool, page: bool)
    requires tested <= workspace.members
    ensures var checks := ListChecks(tested, pane, page);
      && (forall member :: TestsMember(workspace, checks, member) <==> member in tested)
      && (EndToEnd(Pane) in checks <==> pane)
      && (EndToEnd(Page) in checks <==> page)
      && (Lint in checks <==> checks != [])
      && AllUnitTests !in checks
  {
    var checks := ListChecks(tested, pane, page);
    if checks != [] {
      assert checks[0] == Lint;
    }
    if tested != {} {
      assert checks[1] == UnitTests(tested);
    }
    if pane {
      assert checks[if tested == {} then 1 else 2] == EndToEnd(Pane);
    }
    if page {
      assert checks[|checks| - 1] == EndToEnd(Page);
    }
  }

  /** Whether `package` depends, through any number of others, on a package that changed. */
  ghost predicate UsesChange(graph: Packages, changes: Changes, package: string) {
    exists changed :: ChangesPackage(graph.packages, changes, changed)
      && Reaches(AnyKind(graph.dependencies), package, changed)
  }

  /**
   What a change reaches, in the repository's own dependency graph: a package that uses a changed one,
   and a suite that builds such a package or whose harness changed.
   */
  lemma {:induction false} CoverageIsReachability(workspace: Workspace, graph: Packages, harness: set<string>,
        changes: Changes)
    requires IsWorkspaceOf(workspace, graph, harness)
    ensures forall package :: DependsOnChange(workspace, changes, package) <==> UsesChange(graph, changes, package)
    ensures RunsSuite(workspace, changes, Pane)
       <==> (ChangesSuite(graph.packages, changes, Pane)
             || exists package :: UsesChange(graph, changes, package)
                  && (package in harness || Reaches(BuiltInto(graph.dependencies), PANE_ROOT, package)))
    ensures RunsSuite(workspace, changes, Page)
       <==> (ChangesSuite(graph.packages, changes, Page)
             || exists package :: UsesChange(graph, changes, package)
                  && Reaches(BuiltInto(graph.dependencies), PAGE_ROOT, package))
  {
    hide ChangesPackage, ChangesSuite, Reaches, AnyKind, BuiltInto, Inverse;
    forall package, changed
      ensures Reaches(workspace.dependents, changed, package)
         <==> Reaches(AnyKind(graph.dependencies), package, changed)
    {
      ReachesBack(AnyKind(graph.dependencies), workspace.dependents, package, changed);
    }
  }

  /** Whether `more` changes at least what `fewer` does; a lock that cannot be read may change anything. */
  predicate ChangesMore(fewer: Changes, more: Changes) {
    && (forall path :: path in fewer.paths ==> path in more.paths)
    && (more.locked == None || (fewer.locked.Some? && fewer.locked.value <= more.locked.value))
  }

  lemma MoreIsReached(workspace: Workspace, fewer: Changes, more: Changes)
    requires ChangesMore(fewer, more)
    ensures RunsEverything(workspace.packages, fewer) ==> RunsEverything(workspace.packages, more)
    ensures RunsEverything(workspace.packages, more)
         || ((forall package :: DependsOnChange(workspace, fewer, package) ==>
             DependsOnChange(workspace, more, package))
             && forall suite :: RunsSuite(workspace, fewer, suite) ==> RunsSuite(workspace, more, suite))
  {
    hide OwnerOf, Reaches;
    if !RunsEverything(workspace.packages, more) {
      forall name | ChangesPackage(workspace.packages, fewer, name)
        ensures ChangesPackage(workspace.packages, more, name)
      {
        var path :| path in fewer.paths && OwnsPackage(OwnerOf(workspace.packages, path), fewer.locked, name);
        assert path in more.paths;
      }
    }
  }

  /** Changing more files never leaves out a check. */
  lemma {:induction false} MoreChangesMoreChecks(workspace: Workspace, fewer: Changes, more: Changes)
    requires ChangesMore(fewer, more)
    ensures var before, after := Checks(workspace, fewer), Checks(workspace, more);
      && (forall member :: TestsMember(workspace, before, member) ==> TestsMember(workspace, after, member))
      && (forall suite :: EndToEnd(suite) in before ==> EndToEnd(suite) in after)
      && (Lint in before ==> Lint in after)
  {
    hide RunsEverything, DependsOnChange, RunsSuite, TestsMember;
    MoreIsReached(workspace, fewer, more);
    PlanCovers(workspace, fewer);
    PlanCovers(workspace, more);
  }
}
