/**
 * App classification of the CI scan: for every valid target, the apps found
 * under that target's test cases, and the standalone apps found under the
 * search paths once every test case's directory has been excluded.
 */
module Classification {
  import opened Text

  type Path = string

  /** A declared test case: the app directory it names and the target it runs on. */
  datatype TestCase = TestCase(appDir: Path, target: string)

  /**
   * The app finder: (build system, search root, recursive, exclude list,
   * target) to the app directories found. It is a parameter of the model and
   * nothing is assumed about it.
   */
  type Finder = (string, Path, bool, seq<Path>, string) -> set<Path>

  const ValidTargets: seq<string> := ["esp32", "esp32s2"]

  /** Targets are compared case-insensitively. */
  predicate SameTarget(a: string, b: string) {
    Lower(a) == Lower(b)
  }

  /** The app directories of the cases for target, in order, one per case. */
  function CaseAppDirs(cases: seq<TestCase>, target: string): seq<Path> {
    if cases == [] then []
    else
      var c := cases[|cases| - 1];
      CaseAppDirs(cases[..|cases| - 1], target) + (if SameTarget(c.target, target) then [c.appDir] else [])
  }

  /** A target's test-case apps: what the finder yields under each of its cases' directories. */
  function TestCaseApps(find: Finder, buildSystem: string, cases: seq<TestCase>, target: string): set<Path> {
    if cases == [] then {}
    else
      var c := cases[|cases| - 1];
      TestCaseApps(find, buildSystem, cases[..|cases| - 1], target)
        + (if SameTarget(c.target, target) then find(buildSystem, c.appDir, true, [], Lower(target)) else {})
  }

  /** The exclusion list once the first pass has run over targets. */
  function ExcludeApps(cases: seq<TestCase>, targets: seq<string>): seq<Path> {
    if targets == [] then []
    else ExcludeApps(cases, targets[..|targets| - 1]) + CaseAppDirs(cases, targets[|targets| - 1])
  }

  /** A target's standalone apps: what the finder yields under every search path, given exclude. */
  function StandaloneApps(find: Finder, buildSystem: string, paths: seq<Path>, exclude: seq<Path>, target: string): set<Path> {
    if paths == [] then {}
    else
      StandaloneApps(find, buildSystem, paths[..|paths| - 1], exclude, target)
        + find(buildSystem, paths[|paths| - 1], true, exclude, Lower(target))
  }

  /** An app is a test-case app of target exactly when some case for that target yields it. */
  lemma {:induction false} TestCaseAppsMembership(find: Finder, buildSystem: string, cases: seq<TestCase>, target: string, app: Path)
    ensures app in TestCaseApps(find, buildSystem, cases, target) <==>
      exists i :: 0 <= i < |cases| && SameTarget(cases[i].target, target)
                  && app in find(buildSystem, cases[i].appDir, true, [], Lower(target))
  {
    if cases != [] {
      var init := cases[..|cases| - 1];
      TestCaseAppsMembership(find, buildSystem, init, target, app);
      assert forall i :: 0 <= i < |init| ==> init[i] == cases[i];
    }
  }

  /** Every case for target, and only those, leaves its directory in CaseAppDirs. */
  lemma {:induction false} CaseAppDirsMembership(cases: seq<TestCase>, target: string, dir: Path)
    ensures dir in CaseAppDirs(cases, target) <==>
      exists i :: 0 <= i < |cases| && SameTarget(cases[i].target, target) && cases[i].appDir == dir
  {
    if cases != [] {
      var init := cases[..|cases| - 1];
      CaseAppDirsMembership(init, target, dir);
      assert forall i :: 0 <= i < |init| ==> init[i] == cases[i];
    }
  }

  /** The indices of the cases for target. */
  ghost function MatchingCases(cases: seq<TestCase>, target: string): set<nat> {
    set i: nat | i < |cases| && SameTarget(cases[i].target, target)
  }

  /** One entry per case for target, however many apps its directory holds. */
  lemma {:induction false} CaseAppDirsCount(cases: seq<TestCase>, target: string)
    ensures |CaseAppDirs(cases, target)| == |MatchingCases(cases, target)|
  {
    if cases != [] {
      var last := |cases| - 1;
      var init := cases[..last];
      CaseAppDirsCount(init, target);
      var matching, before := MatchingCases(cases, target), MatchingCases(init, target);
      forall i: nat | i < last
        ensures i in matching <==> i in before
      {
        assert init[i] == cases[i];
      }
      if SameTarget(cases[last].target, target) {
        assert CaseAppDirs(cases, target) == CaseAppDirs(init, target) + [cases[last].appDir];
        assert matching == before + {last};
      } else {
        assert CaseAppDirs(cases, target) == CaseAppDirs(init, target);
        assert matching == before;
      }
    }
  }

  /** A directory is excluded exactly when some case for one of targets names it. */
  lemma ExcludeAppsMembership(cases: seq<TestCase>, targets: seq<string>, dir: Path)
    ensures dir in ExcludeApps(cases, targets) <==>
      exists i, k :: 0 <= i < |cases| && 0 <= k < |targets|
                     && SameTarget(cases[i].target, targets[k]) && cases[i].appDir == dir
  {
    if dir in ExcludeApps(cases, targets) {
      ExcludeAppsSound(cases, targets, dir);
    }
    if exists i, k :: 0 <= i < |cases| && 0 <= k < |targets|
                      && SameTarget(cases[i].target, targets[k]) && cases[i].appDir == dir {
      var i, k :| 0 <= i < |cases| && 0 <= k < |targets|
                  && SameTarget(cases[i].target, targets[k]) && cases[i].appDir == dir;
      ExcludeAppsComplete(cases, targets, i, k);
    }
  }

  /** Every excluded directory comes from a case for one of targets. */
  lemma {:induction false} ExcludeAppsSound(cases: seq<TestCase>, targets: seq<string>, dir: Path)
    requires dir in ExcludeApps(cases, targets)
    ensures exists i, k :: 0 <= i < |cases| && 0 <= k < |targets|
                           && SameTarget(cases[i].target, targets[k]) && cases[i].appDir == dir
  {
    var kl := |targets| - 1;
    var init := targets[..kl];
    if dir in ExcludeApps(cases, init) {
      ExcludeAppsSound(cases, init, dir);
      var i, k :| 0 <= i < |cases| && 0 <= k < |init|
                  && SameTarget(cases[i].target, init[k]) && cases[i].appDir == dir;
      assert init[k] == targets[k];
    } else {
      CaseAppDirsMembership(cases, targets[kl], dir);
      var i :| 0 <= i < |cases| && SameTarget(cases[i].target, targets[kl]) && cases[i].appDir == dir;
      assert 0 <= kl < |targets|;
    }
  }

  /** The directory of every case for one of targets is excluded. */
  lemma {:induction false} ExcludeAppsComplete(cases: seq<TestCase>, targets: seq<string>, i: nat, k: nat)
    requires i < |cases| && k < |targets| && SameTarget(cases[i].target, targets[k])
    ensures cases[i].appDir in ExcludeApps(cases, targets)
  {
    var kl := |targets| - 1;
    var init := targets[..kl];
    assert ExcludeApps(cases, targets) == ExcludeApps(cases, init) + CaseAppDirs(cases, targets[kl]);
    if k < kl {
      assert init[k] == targets[k];
      ExcludeAppsComplete(cases, init, i, k);
    } else {
      CaseAppDirsMembership(cases, targets[k], cases[i].appDir);
    }
  }

  /** An app is standalone for target exactly when the finder yields it under some search path. */
  lemma {:induction false} StandaloneAppsMembership(find: Finder, buildSystem: string, paths: seq<Path>, exclude: seq<Path>, target: string, app: Path)
    ensures app in StandaloneApps(find, buildSystem, paths, exclude, target) <==>
      exists j :: 0 <= j < |paths| && app in find(buildSystem, paths[j], true, exclude, Lower(target))
  {
    if paths != [] {
      var init := paths[..|paths| - 1];
      StandaloneAppsMembership(find, buildSystem, init, exclude, target, app);
      assert forall j :: 0 <= j < |init| ==> init[j] == paths[j];
    }
  }

  /**
   * The first pass: for each valid target, the apps under its test cases'
   * directories; every such case appends its directory to the exclusion list.
   */
  method CollectTestCaseApps(find: Finder, buildSystem: string, testCases: seq<TestCase>)
    returns (testCaseApps: map<string, set<Path>>, excludeApps: seq<Path>)
    ensures testCaseApps.Keys == set t | t in ValidTargets
    ensures forall t :: t in ValidTargets ==>
      testCaseApps[t] == TestCaseApps(find, buildSystem, testCases, t)
    ensures excludeApps == ExcludeApps(testCases, ValidTargets)
  {
    testCaseApps, excludeApps := map[], [];
    var ti := 0;
    while ti < |ValidTargets|
      invariant 0 <= ti <= |ValidTargets|
      invariant forall t :: t in testCaseApps <==> t in ValidTargets[..ti]
      invariant forall t :: t in ValidTargets[..ti] ==>
        testCaseApps[t] == TestCaseApps(find, buildSystem, testCases, t)
      invariant excludeApps == ExcludeApps(testCases, ValidTargets[..ti])
    {
      var target := ValidTargets[ti];
      assert target !in ValidTargets[..ti];
      var apps: set<Path> := {};
      var ci := 0;
      while ci < |testCases|
        invariant 0 <= ci <= |testCases|
        invariant apps == TestCaseApps(find, buildSystem, testCases[..ci], target)
        invariant excludeApps == ExcludeApps(testCases, ValidTargets[..ti]) + CaseAppDirs(testCases[..ci], target)
      {
        var c := testCases[ci];
        assert testCases[..ci + 1][..ci] == testCases[..ci];
        if Lower(c.target) == Lower(target) {
          apps := apps + find(buildSystem, c.appDir, true, [], Lower(target));
          excludeApps := excludeApps + [c.appDir];
        }
        ci := ci + 1;
      }
      assert testCases[..ci] == testCases;
      testCaseApps := testCaseApps[target := apps];
      assert ValidTargets[..ti + 1] == ValidTargets[..ti] + [target];
      ti := ti + 1;
    }
    assert ValidTargets[..ti] == ValidTargets;
  }

  /** The second pass: for each valid target, the apps under every search path, given the exclusion list. */
  method CollectStandaloneApps(find: Finder, buildSystem: string, paths: seq<Path>, excludeApps: seq<Path>)
    returns (standaloneApps: map<string, set<Path>>)
    ensures standaloneApps.Keys == set t | t in ValidTargets
    ensures forall t :: t in ValidTargets ==>
      standaloneApps[t] == StandaloneApps(find, buildSystem, paths, excludeApps, t)
  {
    standaloneApps := map[];
    var ti := 0;
    while ti < |ValidTargets|
      invariant 0 <= ti <= |ValidTargets|
      invariant forall t :: t in standaloneApps <==> t in ValidTargets[..ti]
      invariant forall t :: t in ValidTargets[..ti] ==>
        standaloneApps[t] == StandaloneApps(find, buildSystem, paths, excludeApps, t)
    {
      var target := ValidTargets[ti];
      assert target !in ValidTargets[..ti];
      var apps: set<Path> := {};
      var pi := 0;
      while pi < |paths|
        invariant 0 <= pi <= |paths|
        invariant apps == StandaloneApps(find, buildSystem, paths[..pi], excludeApps, target)
      {
        assert paths[..pi + 1][..pi] == paths[..pi];
        apps := apps + find(buildSystem, paths[pi], true, excludeApps, Lower(target));
        pi := pi + 1;
      }
      assert paths[..pi] == paths;
      standaloneApps := standaloneApps[target := apps];
      assert ValidTargets[..ti + 1] == ValidTargets[..ti] + [target];
      ti := ti + 1;
    }
    assert ValidTargets[..ti] == ValidTargets;
  }

  /**
   * Both passes, in order: standalone discovery starts only once the first
   * pass has finished for every target.
   */
  method Classify(find: Finder, buildSystem: string, testCases: seq<TestCase>, paths: seq<Path>)
    returns (testCaseApps: map<string, set<Path>>, standaloneApps: map<string, set<Path>>, excludeApps: seq<Path>)
    ensures excludeApps == ExcludeApps(testCases, ValidTargets)
    ensures testCaseApps.Keys == standaloneApps.Keys == set t | t in ValidTargets
    ensures forall t :: t in ValidTargets ==>
      testCaseApps[t] == TestCaseApps(find, buildSystem, testCases, t)
    // every standalone search sees the exclusion list of ALL targets' test cases
    ensures forall t :: t in ValidTargets ==>
      standaloneApps[t] == StandaloneApps(find, buildSystem, paths, ExcludeApps(testCases, ValidTargets), t)
  {
    testCaseApps, excludeApps := CollectTestCaseApps(find, buildSystem, testCases);
    standaloneApps := CollectStandaloneApps(find, buildSystem, paths, excludeApps);
  }

  /** The finder only reports apps that lie under the root it searched. */
  ghost predicate StaysUnderRoot(find: Finder, under: (Path, Path) -> bool) {
    forall buildSystem, root, recursive, exclude, target, app ::
      app in find(buildSystem, root, recursive, exclude, target) ==> under(app, root)
  }

  /** The finder never reports an app that lies under a directory of its exclude list. */
  ghost predicate HonoursExclusion(find: Finder, under: (Path, Path) -> bool) {
    forall buildSystem, root, recursive, exclude, target, app, dir ::
      app in find(buildSystem, root, recursive, exclude, target) && dir in exclude ==> !under(app, dir)
  }

  /**
   * For a finder that keeps to its root and honours its exclude list, no app
   * is a test-case app of one valid target and a standalone app of any
   * valid target (the same one or another).
   */
  lemma ClassificationDisjoint(find: Finder, under: (Path, Path) -> bool, buildSystem: string,
                               cases: seq<TestCase>, paths: seq<Path>, t1: string, t2: string)
    requires StaysUnderRoot(find, under) && HonoursExclusion(find, under)
    requires t1 in ValidTargets
    ensures TestCaseApps(find, buildSystem, cases, t1)
         !! StandaloneApps(find, buildSystem, paths, ExcludeApps(cases, ValidTargets), t2)
  {
    var exclude := ExcludeApps(cases, ValidTargets);
    forall app | app in TestCaseApps(find, buildSystem, cases, t1)
      ensures app !in StandaloneApps(find, buildSystem, paths, exclude, t2)
    {
      TestCaseAppsMembership(find, buildSystem, cases, t1, app);
      var i :| 0 <= i < |cases| && SameTarget(cases[i].target, t1)
               && app in find(buildSystem, cases[i].appDir, true, [], Lower(t1));
      assert under(app, cases[i].appDir);
      var k :| 0 <= k < |ValidTargets| && ValidTargets[k] == t1;
      ExcludeAppsMembership(cases, ValidTargets, cases[i].appDir);
      assert cases[i].appDir in exclude;
      StandaloneAppsMembership(find, buildSystem, paths, exclude, t2, app);
    }
  }
}
