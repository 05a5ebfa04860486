/**
 * Manifest construction of the CI scan: one build record per classified
 * app, with the flag rules of each build system, and the name of the file
 * a target's records go to.
 */
module Manifest {
  import opened Text
  import opened Classification

  const CMake: string := "cmake"

  /** One line of a manifest: {"app_dir": ..., "build": ..., "preserve": ...}. */
  datatype BuildRecord = BuildRecord(appDir: Path, build: bool, preserve: bool)

  /** The record of a test-case app: always built; cmake apps always preserved. */
  function TestCaseRecord(appDir: Path, buildSystem: string, preserve: bool): BuildRecord {
    BuildRecord(appDir, true, preserve || buildSystem == CMake)
  }

  /**
   * The record of a standalone app: under cmake it is built only when
   * building all and preserved only when also asked to; under any other
   * build system it is always built and never preserved.
   */
  function StandaloneRecord(appDir: Path, buildSystem: string, buildAll: bool, preserve: bool): BuildRecord {
    if buildSystem == CMake then BuildRecord(appDir, buildAll, preserve && buildAll)
    else BuildRecord(appDir, true, false)
  }

  /** The set of app directories named in records. */
  function AppDirs(records: seq<BuildRecord>): set<Path> {
    if records == [] then {}
    else AppDirs(records[..|records| - 1]) + {records[|records| - 1].appDir}
  }

  /** records names exactly the directories of dirs, as many records as directories. */
  ghost predicate Enumerates(records: seq<BuildRecord>, dirs: set<Path>) {
    AppDirs(records) == dirs && |records| == |dirs|
  }

  /** Every record of part is the test-case record of its directory. */
  ghost predicate AreTestCaseRecords(part: seq<BuildRecord>, buildSystem: string, preserve: bool) {
    forall r :: r in part ==> r == TestCaseRecord(r.appDir, buildSystem, preserve)
  }

  /** Every record of part is the standalone record of its directory. */
  ghost predicate AreStandaloneRecords(part: seq<BuildRecord>, buildSystem: string, buildAll: bool, preserve: bool) {
    forall r :: r in part ==> r == StandaloneRecord(r.appDir, buildSystem, buildAll, preserve)
  }

  /**
   * records is a manifest of a target: first one record per test-case app,
   * each app exactly once, then one record per standalone app, each exactly
   * once, every one with the flags of its class. The order within each class
   * is unspecified (the source iterates over sets).
   */
  ghost predicate IsManifest(records: seq<BuildRecord>, testCaseApps: set<Path>, standaloneApps: set<Path>,
                             buildSystem: string, buildAll: bool, preserve: bool) {
    var n := |testCaseApps|;
    && n <= |records|
    && Enumerates(records[..n], testCaseApps)
    && AreTestCaseRecords(records[..n], buildSystem, preserve)
    && Enumerates(records[n..], standaloneApps)
    && AreStandaloneRecords(records[n..], buildSystem, buildAll, preserve)
  }

  lemma {:induction false} AppDirsBound(records: seq<BuildRecord>)
    ensures |AppDirs(records)| <= |records|
    ensures forall i :: 0 <= i < |records| ==> records[i].appDir in AppDirs(records)
  {
    if records != [] {
      var init := records[..|records| - 1];
      AppDirsBound(init);
      assert forall i :: 0 <= i < |init| ==> init[i] == records[i];
    }
  }

  /** When there are as many records as directories, no directory is listed twice. */
  lemma {:induction false} AppDirsDistinct(records: seq<BuildRecord>)
    requires |AppDirs(records)| == |records|
    ensures forall i, j :: 0 <= i < j < |records| ==> records[i].appDir != records[j].appDir
  {
    if records != [] {
      var init := records[..|records| - 1];
      var last := records[|records| - 1];
      AppDirsBound(init);
      assert forall i :: 0 <= i < |init| ==> init[i] == records[i];
      AppDirsDistinct(init);
    }
  }

  /** An enumeration of dirs lists each directory of dirs, and nothing else, exactly once. */
  lemma EnumerationListsEachDirOnce(records: seq<BuildRecord>, dirs: set<Path>)
    requires Enumerates(records, dirs)
    ensures forall dir :: dir in dirs <==> exists i :: 0 <= i < |records| && records[i].appDir == dir
    ensures forall i, j :: 0 <= i < j < |records| ==> records[i].appDir != records[j].appDir
  {
    AppDirsBound(records);
    AppDirsDistinct(records);
    AppDirsMembership(records);
  }

  /** An enumeration of dirs whose records are all made by record holds exactly the records of dirs. */
  lemma EnumerationRecordSet(part: seq<BuildRecord>, dirs: set<Path>, record: Path -> BuildRecord)
    requires Enumerates(part, dirs)
    requires forall r :: r in part ==> r == record(r.appDir)
    ensures (set r | r in part) == (set d | d in dirs :: record(d))
  {
    AppDirsBound(part);
    AppDirsMembership(part);
  }

  /**
   * Whatever order the sets were enumerated in, a manifest holds exactly the
   * test-case records of its test-case apps and the standalone records of
   * its standalone apps.
   */
  lemma ManifestRecordSet(records: seq<BuildRecord>, testCaseApps: set<Path>, standaloneApps: set<Path>,
                          buildSystem: string, buildAll: bool, preserve: bool)
    requires IsManifest(records, testCaseApps, standaloneApps, buildSystem, buildAll, preserve)
    ensures (set r | r in records) ==
      (set d | d in testCaseApps :: TestCaseRecord(d, buildSystem, preserve))
      + (set d | d in standaloneApps :: StandaloneRecord(d, buildSystem, buildAll, preserve))
  {
    var n := |testCaseApps|;
    var front, back := records[..n], records[n..];
    assert records == front + back;
    var testCaseRecord := d => TestCaseRecord(d, buildSystem, preserve);
    var standaloneRecord := d => StandaloneRecord(d, buildSystem, buildAll, preserve);
    EnumerationRecordSet(front, testCaseApps, testCaseRecord);
    EnumerationRecordSet(back, standaloneApps, standaloneRecord);
    assert (set d | d in testCaseApps :: testCaseRecord(d))
        == (set d | d in testCaseApps :: TestCaseRecord(d, buildSystem, preserve));
    assert (set d | d in standaloneApps :: standaloneRecord(d))
        == (set d | d in standaloneApps :: StandaloneRecord(d, buildSystem, buildAll, preserve));
    assert (set r | r in records) == (set r | r in front) + (set r | r in back);
  }

  /**
   * The flags of a manifest: test-case apps are always built, standalone
   * apps are skipped only by a cmake scan that does not build all, and no
   * app has its artifacts preserved without being built.
   */
  lemma ManifestFlags(records: seq<BuildRecord>, testCaseApps: set<Path>, standaloneApps: set<Path>,
                      buildSystem: string, buildAll: bool, preserve: bool)
    requires IsManifest(records, testCaseApps, standaloneApps, buildSystem, buildAll, preserve)
    ensures forall r :: r in records ==> (r.preserve ==> r.build)
    ensures forall r :: r in records[..|testCaseApps|] ==>
      r.build && (r.preserve <==> preserve || buildSystem == CMake)
    ensures forall r :: r in records[|testCaseApps|..] ==>
      (r.build <==> buildSystem != CMake || buildAll) && (r.preserve <==> buildSystem == CMake && preserve && buildAll)
  {
  }

  lemma {:induction false} AppDirsMembership(records: seq<BuildRecord>)
    ensures forall app :: app in AppDirs(records) ==> exists i :: 0 <= i < |records| && records[i].appDir == app
  {
    if records != [] {
      var init := records[..|records| - 1];
      AppDirsMembership(init);
      assert forall i :: 0 <= i < |init| ==> init[i] == records[i];
    }
  }

  /** Appends to apps one record, made by record, for each directory of dirs, in some order. */
  method AppendRecords(apps: seq<BuildRecord>, dirs: set<Path>, record: Path -> BuildRecord)
    returns (r: seq<BuildRecord>)
    requires forall d :: record(d).appDir == d
    ensures |apps| <= |r| && r[..|apps|] == apps
    ensures Enumerates(r[|apps|..], dirs)
    ensures forall x :: x in r[|apps|..] ==> x == record(x.appDir)
  {
    r := apps;
    var todo := dirs;
    while todo != {}
      invariant todo <= dirs
      invariant |r| == |apps| + |dirs| - |todo|
      invariant r[..|apps|] == apps
      invariant AppDirs(r[|apps|..]) == dirs - todo
      invariant forall x :: x in r[|apps|..] ==> x == record(x.appDir)
      decreases |todo|
    {
      var appDir :| appDir in todo;
      var added := r[|apps|..];
      assert (added + [record(appDir)])[..|added|] == added;
      assert (r + [record(appDir)])[|apps|..] == added + [record(appDir)];
      r := r + [record(appDir)];
      todo := todo - {appDir};
    }
  }

  /**
   * The records of one target: the test-case apps, then the standalone
   * apps, each set enumerated in some order.
   */
  method BuildRecords(testCaseApps: set<Path>, standaloneApps: set<Path>, buildSystem: string, buildAll: bool, preserve: bool)
    returns (apps: seq<BuildRecord>)
    ensures IsManifest(apps, testCaseApps, standaloneApps, buildSystem, buildAll, preserve)
  {
    var testCaseRecords := AppendRecords([], testCaseApps, d => TestCaseRecord(d, buildSystem, preserve));
    assert testCaseRecords[0..] == testCaseRecords;
    apps := AppendRecords(testCaseRecords, standaloneApps, d => StandaloneRecord(d, buildSystem, buildAll, preserve));
  }

  /** The manifest file name of a target, 'scan_<target.lower()>_<build_system>.json'. */
  function ManifestName(target: string, buildSystem: string): string {
    "scan_" + Lower(target) + "_" + buildSystem + ".json"
  }

  /** For one build system, the file name gives back the lower-cased target: files of different targets never clash. */
  lemma ManifestNameInjective(t1: string, t2: string, buildSystem: string)
    requires ManifestName(t1, buildSystem) == ManifestName(t2, buildSystem)
    ensures Lower(t1) == Lower(t2)
  {
    var name := ManifestName(t1, buildSystem);
    var l1, l2 := Lower(t1), Lower(t2);
    assert |l1| == |l2|;
    assert name[5..5 + |l1|] == l1;
    assert ManifestName(t2, buildSystem)[5..5 + |l2|] == l2;
  }
}
