/**
 What each changed file belongs to, by the names of files and directories
 (`crates/check-changed/src/plan.rs`).
 */
module PlannerFiles {
  import opened Wrappers
  import opened PackageGraph
  import opened Planner

  ghost predicate IsInPackage(packages: map<string, string>, path: string) {
    exists directory :: directory in packages && directory + "/" <= path
  }

  /** The manifest of the workspace, its tools and its build: what they reach cannot be told. */
  ghost predicate IsShared(path: string) {
    path == "Cargo.toml" || path == "Makefile" || "nix/" <= path || ".config/" <= path
  }

  /** What no check reads. */
  ghost predicate IsUnread(path: string) {
    || "docs/" <= path || ".agents/" <= path || ".claude/" <= path || "scripts/" <= path
    || path == "LICENSE" || path == ".gitignore" || path == ".envrc" || path == ".mcp.json"
    || path == "herdr-plugin.toml"
  }

  ghost predicate IsDocumentation(path: string) {
    IsMarkdown(path) && !("crates/" <= path) && !("vendor/" <= path)
  }

  lemma SharedIs(path: string)
    ensures MatchesAny(path, EVERYTHING) <==> IsShared(path)
  {
    if MatchesAny(path, EVERYTHING) {
      var i :| 0 <= i < |EVERYTHING| && MatchesRule(path, EVERYTHING[i]);
      assert EVERYTHING[i] in ["Cargo.toml", "nix/", "Makefile", ".config/"];
    }
    assert MatchesRule(path, EVERYTHING[0]) <==> path == "Cargo.toml";
    assert MatchesRule(path, EVERYTHING[1]) <==> "nix/" <= path;
    assert MatchesRule(path, EVERYTHING[2]) <==> path == "Makefile";
    assert MatchesRule(path, EVERYTHING[3]) <==> ".config/" <= path;
  }

  lemma UnreadIs(path: string)
    ensures MatchesAny(path, NOTHING) <==> IsUnread(path)
  {
    assert MatchesRule(path, NOTHING[0]) <==> "docs/" <= path;
    assert MatchesRule(path, NOTHING[1]) <==> ".agents/" <= path;
    assert MatchesRule(path, NOTHING[2]) <==> ".claude/" <= path;
    assert MatchesRule(path, NOTHING[3]) <==> "scripts/" <= path;
    assert MatchesRule(path, NOTHING[4]) <==> path == "LICENSE";
    assert MatchesRule(path, NOTHING[5]) <==> path == ".gitignore";
    assert MatchesRule(path, NOTHING[6]) <==> path == ".envrc";
    assert MatchesRule(path, NOTHING[7]) <==> path == ".mcp.json";
    assert MatchesRule(path, NOTHING[8]) <==> path == "herdr-plugin.toml";
  }

  lemma SuitesAre(path: string)
    ensures MatchesRule(path, SUITES[0].0) <==> "tests/tui/" <= path
    ensures MatchesRule(path, SUITES[1].0) <==> "tests/explore-page/" <= path
  {
  }

  /** Whether `name` is the package of the innermost directory that holds the file. */
  ghost predicate IsInnermost(packages: map<string, string>, path: string, name: string) {
    exists directory ::
      directory in packages && directory + "/" <= path && name == packages[directory]
      && forall other :: other in packages && other + "/" <= path ==> |other| <= |directory|
  }

  lemma PackageIs(packages: map<string, string>, path: string)
    ensures match InnermostPackage(packages, path)
            case None => !IsInPackage(packages, path)
            case Some(name) => IsInPackage(packages, path) && IsInnermost(packages, path, name)
  {
    hide Innermost;
    var innermost := Innermost(packages, path, |path|);
    forall other | other in packages && other + "/" <= path
      ensures |other| <= |path| && IsUnder(path, other)
    {
    }
  }

  /** What a file belongs to, by the first of the names that it has. */
  lemma {:induction false} OwnerIs(packages: map<string, string>, path: string)
    ensures var owner := OwnerOf(packages, path);
      if path == "Cargo.lock" then owner == Lock
      else if IsShared(path) then owner == Everything
      else if IsDocumentation(path) then owner == Nothing
      else if "tests/tui/" <= path then owner == OfSuite(Pane)
      else if "tests/explore-page/" <= path then owner == OfSuite(Page)
      else if IsInPackage(packages, path) then owner.OfPackage? && IsInnermost(packages, path, owner.name)
      else if IsUnread(path) then owner == Nothing
      else owner == Unmapped
  {
    SharedIs(path);
    UnreadIs(path);
    SuitesAre(path);
    PackageIs(packages, path);
    hide MatchesAny, MatchesRule, IsMarkdown, IsShared, IsUnread, InnermostPackage, IsInPackage, IsInnermost;
  }

  lemma NameIs(path: string)
    requires path != "" && path[|path| - 1] != '/' && path[|path| - 1] != '.'
    ensures var slash := LastIndex(path, '/'); slash < |path| - 1 && FileName(path) == Some(path[slash + 1..])
  {
    hide LastIndex;
    var slash := LastIndex(path, '/');
    var name := path[slash + 1..];
    assert name[|name| - 1] == path[|path| - 1];
  }

  /** A name has the extension `md` when it ends in `.md`, in any case, and is more than that. */
  lemma ExtensionIs(path: string, name: string)
    requires FileName(path) == Some(name)
    ensures IsMarkdown(path) <==>
              |name| > 3 && name[|name| - 3] == '.' && name[|name| - 2] in "mM" && name[|name| - 1] in "dD"
  {
    hide LastIndex, FileName;
    var dot := LastIndex(name, '.');
    assert dot > 0 ==> |name[dot + 1..]| == |name| - dot - 1;
  }

  /** A file is Markdown when its name ends in `.md`, in any case, and is more than that. */
  lemma {:induction false} MarkdownIs(path: string)
    requires path != "" && path[|path| - 1] != '/' && path[|path| - 1] != '.'
    ensures IsMarkdown(path) <==>
              && |path| > 3 && path[|path| - 4] != '/' && path[|path| - 3] == '.'
              && path[|path| - 2] in "mM" && path[|path| - 1] in "dD"
  {
    NameIs(path);
    var slash := LastIndex(path, '/');
    var name := path[slash + 1..];
    ExtensionIs(path, name);
    hide IsMarkdown, LastIndex;
    assert forall k :: 0 <= k < |name| ==> name[k] == path[slash + 1 + k];
  }

  // What the files reach, and why.

  ghost predicate Holds(paths: seq<string>, packages: map<string, string>, owner: Owner) {
    exists path :: path in paths && OwnerOf(packages, path) == owner
  }

  /** What the changed files change, and when every check runs. */
  lemma {:induction false} ReachIs(packages: map<string, string>, changes: Changes)
    ensures RunsEverything(packages, changes) <==>
              || ("Cargo.lock" in changes.paths && changes.locked == None)
              || Holds(changes.paths, packages, Everything) || Holds(changes.paths, packages, Unmapped)
    ensures forall name :: ChangesPackage(packages, changes, name) <==>
              || Holds(changes.paths, packages, OfPackage(name))
              || ("Cargo.lock" in changes.paths && changes.locked.Some? && name in changes.locked.value)
    ensures forall suite :: ChangesSuite(packages, changes, suite) <==> Holds(changes.paths, packages, OfSuite(suite))
  {
    forall path | path in changes.paths
      ensures OwnerOf(packages, path) == Lock <==> path == "Cargo.lock"
    {
      OwnerIs(packages, path);
    }
    hide OwnerOf;
  }

  /** Every check runs for these reasons: one for each file that reaches every check, or that no rule names. */
  lemma {:induction false} ReasonsAre(packages: map<string, string>, paths: seq<string>, locked: Option<set<string>>,
                                      reason: Reason)
    ensures reason in Reasons(packages, paths, locked) <==>
            match reason
            case UnreadableLock => "Cargo.lock" in paths && locked == None
            case ReachesEverything(path) => path in paths && OwnerOf(packages, path) == Everything
            case NotMapped(path) => path in paths && OwnerOf(packages, path) == Unmapped
            case _ => false
    decreases |paths|
  {
    if paths != [] {
      var before, last := paths[..|paths| - 1], paths[|paths| - 1];
      assert paths == before + [last];
      ReasonsAre(packages, before, locked, reason);
      OwnerIs(packages, last);
      hide OwnerOf;
    }
  }

  lemma SuiteReasonsAre(workspace: Workspace, changes: Changes, suite: Suite, reason: Reason)
    ensures reason in SuiteReasons(workspace, changes, suite) <==>
            if ChangesSuite(workspace.packages, changes, suite) then reason == HarnessChanged(suite)
            else BuildsChange(workspace, changes, suite) && reason == BuildsChanged(suite)
    ensures SuiteReasons(workspace, changes, suite) == [] <==> !RunsSuite(workspace, changes, suite)
  {
    hide ChangesSuite, BuildsChange;
  }

  lemma TestReasonsAre(workspace: Workspace, changes: Changes, reason: Reason)
    ensures reason in TestReasons(workspace, changes) <==>
              && Tested(workspace, changes) != {} && reason.PackagesChanged?
              && forall name :: name in reason.packages <==> ChangesPackage(workspace.packages, changes, name)
  {
    var changed := Changed(workspace.packages, changes);
    forall name
      ensures name in changed <==> ChangesPackage(workspace.packages, changes, name)
    {
      ChangedIsAll(workspace.packages, changes, name);
    }
    hide Tested, Changed, ChangesPackage;
    if reason.PackagesChanged? && (forall name :: name in reason.packages <==> name in changed) {
      assert reason.packages == changed;
    }
  }

  lemma InEither(a: seq<Reason>, b: seq<Reason>, c: seq<Reason>, reason: Reason)
    ensures reason in a + b + c <==> reason in a || reason in b || reason in c
    ensures a + b + c == [] <==> a == [] && b == [] && c == []
  {
    assert |a + b + c| == |a| + |b| + |c|;
  }

  /** Some checks run for these reasons, and none runs for the last. */
  lemma {:induction false} PlanReasonsAre(workspace: Workspace, changes: Changes, reason: Reason)
    requires !RunsEverything(workspace.packages, changes)
    ensures reason in PlanReasons(workspace, changes) <==>
            match reason
            case PackagesChanged(packages) =>
              && Tested(workspace, changes) != {}
              && forall name :: name in packages <==> ChangesPackage(workspace.packages, changes, name)
            case HarnessChanged(suite) => ChangesSuite(workspace.packages, changes, suite)
            case BuildsChanged(suite) =>
              !ChangesSuite(workspace.packages, changes, suite) && BuildsChange(workspace, changes, suite)
            case NothingRead => Checks(workspace, changes) == []
            case _ => false
  {
    TestReasonsAre(workspace, changes, reason);
    SuiteReasonsAre(workspace, changes, Pane, reason);
    SuiteReasonsAre(workspace, changes, Page, reason);
    InEither(TestReasons(workspace, changes), SuiteReasons(workspace, changes, Pane),
             SuiteReasons(workspace, changes, Page), reason);
    NoCheckRuns(workspace, changes);
    assert reason.HarnessChanged? || reason.BuildsChanged? ==> reason.suite == Pane || reason.suite == Page;
    hide RunsEverything, TestReasons, SuiteReasons, Tested, ChangesPackage, ChangesSuite, BuildsChange, Checks,
      RunsSuite;
  }

  lemma NoCheckRuns(workspace: Workspace, changes: Changes)
    requires !RunsEverything(workspace.packages, changes)
    ensures Checks(workspace, changes) == [] <==>
              && TestReasons(workspace, changes) == [] && !RunsSuite(workspace, changes, Pane)
              && !RunsSuite(workspace, changes, Page)
  {
    var pane, page := RunsSuite(workspace, changes, Pane), RunsSuite(workspace, changes, Page);
    hide RunsEverything, RunsSuite, Tested, Changed;
    NothingListed(Tested(workspace, changes), pane, page);
  }

  lemma NothingListed(tested: set<string>, pane: bool, page: bool)
    ensures ListChecks(tested, pane, page) == [] <==> tested == {} && !pane && !page
  {
    if tested != {} || pane || page {
      assert ListChecks(tested, pane, page)[0] == Lint;
    }
  }

  lemma ChangedIsAll(packages: map<string, string>, changes: Changes, name: string)
    ensures name in Changed(packages, changes) <==> ChangesPackage(packages, changes, name)
  {
    if ChangesPackage(packages, changes, name) {
      var path :| path in changes.paths && OwnsPackage(OwnerOf(packages, path), changes.locked, name);
      if OwnerOf(packages, path) == OfPackage(name) {
        OwnedIsPackage(packages, path, name);
      }
    }
  }
}
