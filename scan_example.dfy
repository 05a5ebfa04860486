/**
 * A worked scan: a small example tree, one declared test case, and the
 * exact manifests a cmake scan of it writes.
 */
module ScanExample {
  import opened Text
  import opened BuildPolicy
  import opened Classification
  import opened Manifest
  import opened CiScan

  /**
   * A finder over a tree holding two apps, examples/foo and examples/bar,
   * both buildable for every target.
   */
  const ExampleFind: Finder :=
    (buildSystem: string, root: Path, recursive: bool, exclude: seq<Path>, target: string) =>
      if root == "examples/foo" then {"examples/foo"}
      else if root == "examples" then
        (if "examples/bar" in exclude then {} else {"examples/bar"})
          + (if "examples/foo" in exclude then {} else {"examples/foo"})
      else {}

  const ExampleCases: seq<TestCase> := [TestCase("examples/foo", "esp32")]

  /** How the example tree classifies: foo is esp32's test-case app, bar is standalone everywhere. */
  lemma ExampleClassification()
    ensures ExcludeApps(ExampleCases, ValidTargets) == ["examples/foo"]
    ensures TestCaseApps(ExampleFind, "cmake", ExampleCases, "esp32") == {"examples/foo"}
    ensures TestCaseApps(ExampleFind, "cmake", ExampleCases, "esp32s2") == {}
    ensures StandaloneApps(ExampleFind, "cmake", ["examples"], ["examples/foo"], "esp32") == {"examples/bar"}
    ensures StandaloneApps(ExampleFind, "cmake", ["examples"], ["examples/foo"], "esp32s2") == {"examples/bar"}
  {
  }

  /**
   * A scan of the example tree with one esp32 test case on examples/foo,
   * --preserve unset and no CI variables set: esp32 gets foo as a test-case
   * app and bar as a standalone app; esp32s2 gets only bar, because foo is
   * excluded for every target.
   */
  lemma ExampleScanClassified(outputs: Outputs, buildAllFlag: bool)
    requires ScanPromise(outputs, ExampleFind, Lower("cmake"), ["examples"], ExampleCases,
                         JudgeBuildAll(buildAllFlag, map[]), false)
    ensures ManifestWritten(outputs, "esp32", {"examples/foo"}, {"examples/bar"}, "cmake", buildAllFlag, false)
    ensures ManifestWritten(outputs, "esp32s2", {}, {"examples/bar"}, "cmake", buildAllFlag, false)
    ensures forall name :: name in outputs ==>
      name == ManifestName("esp32", "cmake") || name == ManifestName("esp32s2", "cmake")
  {
    LowerOfLowerCase("cmake");
    assert JudgeBuildAll(buildAllFlag, map[]) == buildAllFlag;
    ScanPerTarget(outputs, ExampleFind, "cmake", ["examples"], ExampleCases, buildAllFlag, false);
    ExampleClassification();
  }

  /**
   * The manifests of that scan: esp32 builds and preserves foo and lists bar,
   * built only with --build-all; esp32s2 lists bar alone. In both files bar
   * is never preserved, since --preserve is unset.
   */
  lemma ExampleOutputs(outputs: Outputs, buildAll: bool)
    requires ManifestWritten(outputs, "esp32", {"examples/foo"}, {"examples/bar"}, "cmake", buildAll, false)
    requires ManifestWritten(outputs, "esp32s2", {}, {"examples/bar"}, "cmake", buildAll, false)
    requires forall name :: name in outputs ==>
      name == ManifestName("esp32", "cmake") || name == ManifestName("esp32s2", "cmake")
    ensures outputs == map[
      ManifestName("esp32", "cmake") := [BuildRecord("examples/foo", true, true), BuildRecord("examples/bar", buildAll, false)],
      ManifestName("esp32s2", "cmake") := [BuildRecord("examples/bar", buildAll, false)]]
  {
    var first := outputs[ManifestName("esp32", "cmake")];
    var second := outputs[ManifestName("esp32s2", "cmake")];
    assert first[..1][..0] == [] && first[1..][..0] == [] && second[0..][..0] == [];
    assert AppDirs(first[..1]) == {first[0].appDir};
    assert AppDirs(first[1..]) == {first[1].appDir};
    assert AppDirs(second[0..]) == {second[0].appDir};
    assert first == [BuildRecord("examples/foo", true, true), BuildRecord("examples/bar", buildAll, false)];
    assert second == [BuildRecord("examples/bar", buildAll, false)];
  }
}
