# CI build-test scan, modelled in Dafny

This project models the core of ESP-IDF's CI scan for build tests
(`tools/ci/python_packages/ttfw_idf/CIScanTests.py`). The scan decides which
apps the CI pipeline builds for each valid target (`esp32`, `esp32s2`). It
works in three stages:

- **Classification.** For each target, the apps found under the directories
  of that target's declared test cases are *test-case apps*. Every such
  directory goes on one exclusion list. After that first pass has run over
  every target, the apps found under the search paths, with the exclusion
  list applied, are that target's *standalone apps*.
- **Build-all decision** (`_judge_build_all`). Everything is built when any
  of these holds:
  - `--build-all` is given;
  - `BUILD_ALL_APPS` is non-empty in the environment;
  - both `CI_COMMIT_REF_NAME` and `CI_PIPELINE_SOURCE` are non-empty, and
    either the pipeline is scheduled or the ref is a special ref (`master`,
    `release/v…`, `v<digits>.<digits>…`).
- **Manifests.** Each target gets a list of build records:
  `{app_dir, build, preserve}`. The test-case apps come first, then the
  standalone apps. The flags follow the build system's rules. The list is
  written to `scan_<target>_<build system>.json` only when it is not empty.

Modules, in dependency order:

- `Text` (`text.dfy`): digits and ASCII lower-casing.
- `BuildPolicy` (`build_policy.dfy`): the special refs and the build-all
  decision.
- `Classification` (`classification.dfy`): the two discovery passes.
- `Manifest` (`manifest.dfy`): record flags, record lists and file names.
- `CiScan` (`scan.dfy`): the scan from the lower-casing of the build system
  to the written files.
- `ScanExample` (`scan_example.dfy`): a worked scan of a small tree.

Some source inputs are modelled as values:

- The app finder `find_apps` is a function-valued parameter (`Finder`).
  Nothing is assumed about it, except in `ClassificationDisjoint`, which
  states its two hypotheses explicitly.
- The process environment is a `map<string, string>`. An unset variable and
  an empty one are both falsy, as in Python.
- The written files are a map from file name to record list.

The source loops over sets, so the order in which apps appear within each
class is unspecified. The model states the manifests up to that order. Each
class of apps is listed exactly once, test-case apps before standalone apps,
and each record carries the flags of its class.

The help text of `--preserve` (line 63) says it preserves the artifacts of
all apps. The code does not: a standalone app under a build system other
than cmake always gets `preserve` False (line 139), and under cmake only
when it is also built. The model follows the code (`StandaloneRecord`,
stated by `ManifestFlags`).

## Model

| member | source | states |
|---|---|---|
| Text.Lower | tools/ci/python_packages/ttfw_idf/CIScanTests.py:113 | lower-casing keeps the length, turns each ASCII capital into its small letter and keeps every other character |
| Text.LowerEqualIgnoringCase | tools/ci/python_packages/ttfw_idf/CIScanTests.py:113 | two strings lower-case alike exactly when they have the same length and agree position by position up to ASCII case |
| Classification.SameTarget | tools/ci/python_packages/ttfw_idf/CIScanTests.py:113 | the case-insensitive target comparison; `Text.LowerEqualIgnoringCase` states which pairs of targets it identifies |
| BuildPolicy.Getenv | tools/ci/python_packages/ttfw_idf/CIScanTests.py:27-31 | reading a variable of the environment map, absent when unset; used by `JudgeBuildAll` |
| BuildPolicy.Truthy | tools/ci/python_packages/ttfw_idf/CIScanTests.py:27-32 | Python truthiness of a variable: set and non-empty; `JudgeBuildAllSpec` states the decision in its terms |
| BuildPolicy.MatchesReleaseBranch | tools/ci/python_packages/ttfw_idf/CIScanTests.py:19 | `re.match(r'^release/v')`: the ref starts with `release/v`; `SpecialRefsMatch` states it as one of the three special refs |
| BuildPolicy.MatchesVersionTag | tools/ci/python_packages/ttfw_idf/CIScanTests.py:20 | the greedy matcher of `^v\d+\.\d+`; `VersionTagMatchesRegex` proves it accepts exactly the regex's language |
| BuildPolicy.DigitRun | tools/ci/python_packages/ttfw_idf/CIScanTests.py:20 | the result is the length of the longest run of digits at a position, so the regex's greedy `\d+` has one reading |
| BuildPolicy.VersionTagMatchesRegex | tools/ci/python_packages/ttfw_idf/CIScanTests.py:20 | the matcher accepts a ref exactly when it is `v`, one or more digits, `.`, one or more digits, then anything (both directions) |
| BuildPolicy.RuleMatches | tools/ci/python_packages/ttfw_idf/CIScanTests.py:41-46 | one special ref tested against the ref: a literal by equality, a pattern by its anchored prefix matcher; `SpecialRefsMatch` states what the three rules accept |
| BuildPolicy.AnyRuleMatches | tools/ci/python_packages/ttfw_idf/CIScanTests.py:40-47 | the loop over the special refs answers true exactly when some rule matches the ref |
| BuildPolicy.SpecialRefsMatch | tools/ci/python_packages/ttfw_idf/CIScanTests.py:17-21 | the three special refs accept exactly `master`, refs starting `release/v` and version tags |
| BuildPolicy.JudgeBuildAll | tools/ci/python_packages/ttfw_idf/CIScanTests.py:24-47 | the flag or a non-empty BUILD_ALL_APPS always yields true; without both CI variables nothing else yields true |
| BuildPolicy.JudgeBuildAllSpec | tools/ci/python_packages/ttfw_idf/CIScanTests.py:24-47 | build all exactly when the flag is set, or BUILD_ALL_APPS is non-empty, or both CI variables are non-empty and the pipeline is scheduled or the ref is special |
| Classification.CaseAppDirs | tools/ci/python_packages/ttfw_idf/CIScanTests.py:110-116 | the directories one target's cases append to the exclusion list; `CaseAppDirsMembership` gives which directories appear and `CaseAppDirsCount` its length (one entry per matching case); the order, case order, comes from the definition alone, which follows lines 110-116 |
| Classification.TestCaseApps | tools/ci/python_packages/ttfw_idf/CIScanTests.py:107-115 | a target's test-case apps, the union of the finder's results under its cases' directories; characterised by `TestCaseAppsMembership` |
| Classification.ExcludeApps | tools/ci/python_packages/ttfw_idf/CIScanTests.py:102-116 | the exclusion list after the first pass over a list of targets; `ExcludeAppsMembership` gives which directories appear; the order (targets outer, cases inner) and repetitions come from the definition alone, which follows lines 107-116 |
| Classification.StandaloneApps | tools/ci/python_packages/ttfw_idf/CIScanTests.py:118-122 | a target's standalone apps, the union of the finder's results under the search paths; characterised by `StandaloneAppsMembership` |
| Classification.TestCaseAppsMembership | tools/ci/python_packages/ttfw_idf/CIScanTests.py:107-115 | an app is a test-case app of a target exactly when the finder yields it under the directory of some case whose target matches case-insensitively |
| Classification.CaseAppDirsMembership | tools/ci/python_packages/ttfw_idf/CIScanTests.py:110-116 | a directory is appended for a target exactly when some case for that target names it |
| Classification.CaseAppDirsCount | tools/ci/python_packages/ttfw_idf/CIScanTests.py:110-116 | one directory is appended per matching case, however many apps lie under it |
| Classification.ExcludeAppsMembership | tools/ci/python_packages/ttfw_idf/CIScanTests.py:102-116 | after the first pass a directory is excluded exactly when some case for some valid target names it |
| Classification.ExcludeAppsSound | tools/ci/python_packages/ttfw_idf/CIScanTests.py:102-116 | every excluded directory comes from a case for one of the targets |
| Classification.ExcludeAppsComplete | tools/ci/python_packages/ttfw_idf/CIScanTests.py:102-116 | the directory of every case for one of the targets is excluded |
| Classification.StandaloneAppsMembership | tools/ci/python_packages/ttfw_idf/CIScanTests.py:118-122 | an app is standalone for a target exactly when the finder, given the exclusion list, yields it under some search path |
| Classification.CollectTestCaseApps | tools/ci/python_packages/ttfw_idf/CIScanTests.py:107-116 | the first pass gives every valid target, and only those, its test-case apps, and leaves the exclusion list of all valid targets |
| Classification.CollectStandaloneApps | tools/ci/python_packages/ttfw_idf/CIScanTests.py:118-122 | the second pass gives every valid target, and only those, its standalone apps for the given exclusion list |
| Classification.Classify | tools/ci/python_packages/ttfw_idf/CIScanTests.py:100-122 | both passes in order: every standalone search sees the exclusion list of all targets' test cases, not only the earlier ones |
| Classification.ClassificationDisjoint | tools/ci/python_packages/ttfw_idf/CIScanTests.py:101-122 | for a finder that stays under its root and honours its exclude list, the test-case apps of any valid target are disjoint from the standalone apps of every target |
| Manifest.TestCaseRecord | tools/ci/python_packages/ttfw_idf/CIScanTests.py:125-134 | the record of a test-case app; `ManifestFlags` states its flags: always built, preserved exactly under --preserve or cmake |
| Manifest.StandaloneRecord | tools/ci/python_packages/ttfw_idf/CIScanTests.py:135-140 | the record of a standalone app; `ManifestFlags` states its flags: built unless cmake without build-all, preserved only under cmake with --preserve and build-all |
| Manifest.EnumerationListsEachDirOnce | tools/ci/python_packages/ttfw_idf/CIScanTests.py:129-140 | a record list built from a set names each app of the set, and nothing else, exactly once |
| Manifest.EnumerationRecordSet | tools/ci/python_packages/ttfw_idf/CIScanTests.py:129-140 | whatever the order, such a list holds exactly the records of the set's apps |
| Manifest.ManifestRecordSet | tools/ci/python_packages/ttfw_idf/CIScanTests.py:125-140 | a target's records are exactly the test-case records of its test-case apps plus the standalone records of its standalone apps |
| Manifest.ManifestFlags | tools/ci/python_packages/ttfw_idf/CIScanTests.py:125-140 | test-case apps are always built, and preserved exactly under --preserve or cmake; standalone apps are skipped only by cmake without build-all, and preserved only by cmake with --preserve and build-all; nothing is preserved unbuilt |
| Manifest.AppendRecords | tools/ci/python_packages/ttfw_idf/CIScanTests.py:128-140 | appending over a set keeps the records already there and adds one record per app of the set, each app once |
| Manifest.BuildRecords | tools/ci/python_packages/ttfw_idf/CIScanTests.py:125-140 | a target's record list is its test-case apps, each once, then its standalone apps, each once, each with the flags of its class |
| Manifest.ManifestNameInjective | tools/ci/python_packages/ttfw_idf/CIScanTests.py:141 | for one build system, equal file names imply equal lower-cased targets |
| Manifest.ManifestName | tools/ci/python_packages/ttfw_idf/CIScanTests.py:141 | the file name `scan_<lower-cased target>_<build system>.json`; `ManifestNameInjective` shows different targets never share one |
| CiScan.DistinctTargetNames | tools/ci/python_packages/ttfw_idf/CIScanTests.py:12-15 | the two valid targets write to different files, so neither overwrites the other |
| CiScan.ManifestWrittenFrame | tools/ci/python_packages/ttfw_idf/CIScanTests.py:141-144 | writing another target's file leaves what was written for this target unchanged |
| CiScan.WriteManifests | tools/ci/python_packages/ttfw_idf/CIScanTests.py:127-144 | for each valid target, a file under its name exists exactly when it has at least one app and holds its manifest; no other file is written |
| CiScan.Scan | tools/ci/python_packages/ttfw_idf/CIScanTests.py:104-144 | the files written are exactly the manifests of the classified apps, under the lower-cased build system and the build-all decision |
| CiScan.SameTargetRecords | tools/ci/python_packages/ttfw_idf/CIScanTests.py:127-144 | two outputs holding a target's manifest from the same apps agree on whether its file exists and on its records |
| CiScan.ScansAgreeOnTarget | tools/ci/python_packages/ttfw_idf/CIScanTests.py:107-144 | two scans with the same inputs agree on the file of each valid target |
| CiScan.ScanDeterministic | tools/ci/python_packages/ttfw_idf/CIScanTests.py:100-144 | two scans with the same inputs write the same set of files with the same records; only the order within a class may differ |
| CiScan.ScanPerTarget | tools/ci/python_packages/ttfw_idf/CIScanTests.py:127-144 | a scan's promise for esp32 and esp32s2 individually; no file other than theirs exists |
| ScanExample.ExampleClassification | tools/ci/python_packages/ttfw_idf/CIScanTests.py:107-122 | in the example tree, foo is esp32's test-case app and is excluded for every target, and bar is standalone for both targets |
| ScanExample.ExampleScanClassified | tools/ci/python_packages/ttfw_idf/CIScanTests.py:100-144 | a cmake scan of the example with no CI variables builds all exactly under --build-all and writes esp32's and esp32s2's manifests from those classes |
| ScanExample.ExampleOutputs | tools/ci/python_packages/ttfw_idf/CIScanTests.py:125-144 | the exact files of that scan: esp32 holds foo (built, preserved) then bar (built only under build-all, not preserved); esp32s2 holds bar alone |

## Left out

- Command-line parsing (lines 51-70): the model takes the parsed values as parameters. These are the build system, search paths, `--preserve` and `--build-all`.
- Finding the declared test cases (lines 72-82): `CIExampleAssignTest`, the CI configuration file, the ExampleGroup and TestAppsGroup choice, and the `test_app_test_` job pattern are not part of this model. The test cases are an input.
- `find_apps` (line 8) is a parameter. The lookup of the build-system class (line 105) is folded into it: the finder receives the lower-cased build-system name. The `KeyError` for an unknown name is not modelled, because argument parsing already restricts the name to the known build systems.
- Creating the output directory (lines 84-89), joining the output path (line 141) and writing and JSON-encoding the files (lines 143-144) are I/O. The model gives the files as a map from file name to records.
- A file from an earlier run that this scan does not overwrite is not modelled. The map holds only the files this scan writes.
- Text.Lower: `str.lower()` is modelled on ASCII letters only, not on full Unicode case mapping.
- BuildPolicy.DigitRun: `\d` is read as the ASCII digits, while Python 3's `\d` also matches other Unicode decimal digits.
- BuildPolicy.JudgeBuildAll: the `re._pattern_type` check (line 41) is modelled by a datatype that tells literal refs from patterns. On Python 3.7 and later that attribute does not exist, so line 41 raises `AttributeError` whenever the loop is reached; the model does not fail there and follows the evident intent.
- Classification.ClassificationDisjoint: disjointness holds only for a finder that stays under its root and honours its exclude list. The source relies on `find_apps` for both, and this model does not include it.
- The order of apps within a class is not modelled, because the source iterates over Python sets. Every contract holds for every order.
