/**
 * The scan as a whole: classify the apps of every valid target, judge
 * whether to build all, and write one manifest per target whose record
 * list is not empty.
 */
module CiScan {
  import opened Text
  import opened BuildPolicy
  import opened Classification
  import opened Manifest

  /** The manifest files written by a scan: file name to its records. */
  type Outputs = map<string, seq<BuildRecord>>

  /**
   * What a scan leaves for target: a file named after it exactly when it has
   * at least one app, and that file is the target's manifest.
   */
  ghost predicate ManifestWritten(outputs: Outputs, target: string, testCaseApps: set<Path>, standaloneApps: set<Path>,
                                  buildSystem: string, buildAll: bool, preserve: bool) {
    var name := ManifestName(target, buildSystem);
    && (name in outputs <==> testCaseApps != {} || standaloneApps != {})
    && (name in outputs ==> IsManifest(outputs[name], testCaseApps, standaloneApps, buildSystem, buildAll, preserve))
  }

  /**
   * What a scan promises: each valid target's manifest is written exactly
   * when it has apps, from the apps classified for it, with the standalone
   * search excluding every test case's directory; no other file is written.
   */
  ghost predicate ScanPromise(outputs: Outputs, find: Finder, buildSystem: string, paths: seq<Path>,
                              testCases: seq<TestCase>, buildAll: bool, preserve: bool) {
    && (forall k :: 0 <= k < |ValidTargets| ==>
          ManifestWritten(outputs, ValidTargets[k],
                          TestCaseApps(find, buildSystem, testCases, ValidTargets[k]),
                          StandaloneApps(find, buildSystem, paths, ExcludeApps(testCases, ValidTargets), ValidTargets[k]),
                          buildSystem, buildAll, preserve))
    && (forall name :: name in outputs ==>
          exists k :: 0 <= k < |ValidTargets| && name == ManifestName(ValidTargets[k], buildSystem))
  }

  /**
   * The third pass: for each valid target, its records, written under the
   * target's file name when there is at least one.
   */
  method WriteManifests(testCaseApps: map<string, set<Path>>, standaloneApps: map<string, set<Path>>,
                        buildSystem: string, buildAll: bool, preserve: bool)
    returns (outputs: Outputs)
    requires forall t :: t in ValidTargets ==> t in testCaseApps && t in standaloneApps
    ensures forall k :: 0 <= k < |ValidTargets| ==>
      ManifestWritten(outputs, ValidTargets[k], testCaseApps[ValidTargets[k]], standaloneApps[ValidTargets[k]],
                      buildSystem, buildAll, preserve)
    ensures forall name :: name in outputs ==>
      exists k :: 0 <= k < |ValidTargets| && name == ManifestName(ValidTargets[k], buildSystem)
  {
    outputs := map[];
    var ti := 0;
    while ti < |ValidTargets|
      invariant 0 <= ti <= |ValidTargets|
      invariant forall k :: 0 <= k < ti ==>
        ManifestWritten(outputs, ValidTargets[k], testCaseApps[ValidTargets[k]], standaloneApps[ValidTargets[k]],
                        buildSystem, buildAll, preserve)
      invariant forall name :: name in outputs ==>
        exists k :: 0 <= k < ti && name == ManifestName(ValidTargets[k], buildSystem)
    {
      var target := ValidTargets[ti];
      var apps := BuildRecords(testCaseApps[target], standaloneApps[target], buildSystem, buildAll, preserve);
      var outputPath := ManifestName(target, buildSystem);
      forall k | 0 <= k < ti ensures ManifestName(ValidTargets[k], buildSystem) != outputPath {
        DistinctTargetNames(k, ti, buildSystem);
      }
      assert apps != [] <==> testCaseApps[target] != {} || standaloneApps[target] != {};
      if apps != [] {
        ghost var before := outputs;
        outputs := outputs[outputPath := apps];
        forall k | 0 <= k < ti
          ensures ManifestWritten(outputs, ValidTargets[k], testCaseApps[ValidTargets[k]], standaloneApps[ValidTargets[k]],
                                  buildSystem, buildAll, preserve)
        {
          ManifestWrittenFrame(before, outputPath, apps, ValidTargets[k], testCaseApps[ValidTargets[k]],
                               standaloneApps[ValidTargets[k]], buildSystem, buildAll, preserve);
        }
      }
      assert ManifestWritten(outputs, target, testCaseApps[target], standaloneApps[target], buildSystem, buildAll, preserve);
      ti := ti + 1;
    }
  }

  /**
   * The scan from the lower-casing of the build system onwards. The test
   * cases are those the CI configuration declares; find stands for the app
   * finder and env for the process environment.
   */
  method Scan(find: Finder, buildSystemArg: string, paths: seq<Path>, testCases: seq<TestCase>,
              preserve: bool, buildAllFlag: bool, env: Env)
    returns (outputs: Outputs)
    ensures ScanPromise(outputs, find, Lower(buildSystemArg), paths, testCases, JudgeBuildAll(buildAllFlag, env), preserve)
  {
    var buildSystem := Lower(buildSystemArg);
    var testCaseApps, standaloneApps, excludeApps := Classify(find, buildSystem, testCases, paths);
    var buildAll := JudgeBuildAll(buildAllFlag, env);
    outputs := WriteManifests(testCaseApps, standaloneApps, buildSystem, buildAll, preserve);
  }

  /** Two scans that keep the same promise about target write the same records for it, up to order. */
  lemma SameTargetRecords(o1: Outputs, o2: Outputs, target: string, testCaseApps: set<Path>, standaloneApps: set<Path>,
                          buildSystem: string, buildAll: bool, preserve: bool)
    requires ManifestWritten(o1, target, testCaseApps, standaloneApps, buildSystem, buildAll, preserve)
    requires ManifestWritten(o2, target, testCaseApps, standaloneApps, buildSystem, buildAll, preserve)
    ensures var name := ManifestName(target, buildSystem);
      && (name in o1 <==> name in o2)
      && (name in o1 ==> (set r | r in o1[name]) == (set r | r in o2[name]))
  {
    var name := ManifestName(target, buildSystem);
    if name in o1 {
      ManifestRecordSet(o1[name], testCaseApps, standaloneApps, buildSystem, buildAll, preserve);
      ManifestRecordSet(o2[name], testCaseApps, standaloneApps, buildSystem, buildAll, preserve);
    }
  }

  /**
   * Two scans of the same tree with the same inputs write the same files,
   * holding the same records: only the order within a file may differ.
   */
  lemma ScanDeterministic(o1: Outputs, o2: Outputs, find: Finder, buildSystem: string, paths: seq<Path>,
                          testCases: seq<TestCase>, buildAll: bool, preserve: bool)
    requires ScanPromise(o1, find, buildSystem, paths, testCases, buildAll, preserve)
    requires ScanPromise(o2, find, buildSystem, paths, testCases, buildAll, preserve)
    ensures o1.Keys == o2.Keys
    ensures forall name :: name in o1 ==> (set r | r in o1[name]) == (set r | r in o2[name])
  {
    forall name | name in o1 || name in o2
      ensures (name in o1 <==> name in o2) && (name in o1 ==> (set r | r in o1[name]) == (set r | r in o2[name]))
    {
      var k :| 0 <= k < |ValidTargets| && name == ManifestName(ValidTargets[k], buildSystem);
      ScansAgreeOnTarget(o1, o2, find, buildSystem, paths, testCases, buildAll, preserve, k);
    }
  }

  /** Two such scans agree on the file of the k-th valid target. */
  lemma ScansAgreeOnTarget(o1: Outputs, o2: Outputs, find: Finder, buildSystem: string, paths: seq<Path>,
                           testCases: seq<TestCase>, buildAll: bool, preserve: bool, k: nat)
    requires ScanPromise(o1, find, buildSystem, paths, testCases, buildAll, preserve)
    requires ScanPromise(o2, find, buildSystem, paths, testCases, buildAll, preserve)
    requires k < |ValidTargets|
    ensures var name := ManifestName(ValidTargets[k], buildSystem);
      && (name in o1 <==> name in o2)
      && (name in o1 ==> (set r | r in o1[name]) == (set r | r in o2[name]))
  {
    var t := ValidTargets[k];
    SameTargetRecords(o1, o2, t, TestCaseApps(find, buildSystem, testCases, t),
                      StandaloneApps(find, buildSystem, paths, ExcludeApps(testCases, ValidTargets), t),
                      buildSystem, buildAll, preserve);
  }

  /** The valid targets have pairwise different manifest names. */
  lemma DistinctTargetNames(k: nat, j: nat, buildSystem: string)
    requires k < j < |ValidTargets|
    ensures ManifestName(ValidTargets[k], buildSystem) != ManifestName(ValidTargets[j], buildSystem)
  {
  }

  /** Writing another target's file leaves what a scan says about target as it was. */
  lemma ManifestWrittenFrame(outputs: Outputs, other: string, records: seq<BuildRecord>, target: string,
                             testCaseApps: set<Path>, standaloneApps: set<Path>,
                             buildSystem: string, buildAll: bool, preserve: bool)
    requires ManifestWritten(outputs, target, testCaseApps, standaloneApps, buildSystem, buildAll, preserve)
    requires other != ManifestName(target, buildSystem)
    ensures ManifestWritten(outputs[other := records], target, testCaseApps, standaloneApps, buildSystem, buildAll, preserve)
  {
  }

  /** Scan's promise, spelled out for each of the two valid targets. */
  lemma ScanPerTarget(outputs: Outputs, find: Finder, buildSystem: string, paths: seq<Path>, cases: seq<TestCase>,
                      buildAll: bool, preserve: bool)
    requires ScanPromise(outputs, find, buildSystem, paths, cases, buildAll, preserve)
    ensures ManifestWritten(outputs, "esp32", TestCaseApps(find, buildSystem, cases, "esp32"),
                            StandaloneApps(find, buildSystem, paths, ExcludeApps(cases, ValidTargets), "esp32"),
                            buildSystem, buildAll, preserve)
    ensures ManifestWritten(outputs, "esp32s2", TestCaseApps(find, buildSystem, cases, "esp32s2"),
                            StandaloneApps(find, buildSystem, paths, ExcludeApps(cases, ValidTargets), "esp32s2"),
                            buildSystem, buildAll, preserve)
    ensures forall name :: name in outputs ==>
      name == ManifestName("esp32", buildSystem) || name == ManifestName("esp32s2", buildSystem)
  {
    var exclude := ExcludeApps(cases, ValidTargets);
    assert ValidTargets[0] == "esp32" && ValidTargets[1] == "esp32s2";
    assert ManifestWritten(outputs, ValidTargets[0], TestCaseApps(find, buildSystem, cases, ValidTargets[0]),
                           StandaloneApps(find, buildSystem, paths, exclude, ValidTargets[0]),
                           buildSystem, buildAll, preserve);
    assert ManifestWritten(outputs, ValidTargets[1], TestCaseApps(find, buildSystem, cases, ValidTargets[1]),
                           StandaloneApps(find, buildSystem, paths, exclude, ValidTargets[1]),
                           buildSystem, buildAll, preserve);
    forall name | name in outputs
      ensures name == ManifestName("esp32", buildSystem) || name == ManifestName("esp32s2", buildSystem)
    {
      var k :| 0 <= k < |ValidTargets| && name == ManifestName(ValidTargets[k], buildSystem);
      if k == 0 {} else { assert k == 1; }
    }
  }
}
