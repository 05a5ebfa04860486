/**
 * The "build all apps" decision of the CI scan: a rule chain over the
 * --build-all flag and three environment variables, first match winning.
 */
module BuildPolicy {
  import opened Text

  /** The process environment, as os.getenv sees it. */
  type Env = map<string, string>

  datatype Option<T> = None | Some(value: T)

  const BuildAllAppsVar: string := "BUILD_ALL_APPS"
  const RefNameVar: string := "CI_COMMIT_REF_NAME"
  const PipelineSourceVar: string := "CI_PIPELINE_SOURCE"

  /** os.getenv: None when the variable is unset. */
  function Getenv(env: Env, key: string): Option<string> {
    if key in env then Some(env[key]) else None
  }

  /** Python truthiness of an os.getenv result: set and non-empty. */
  predicate Truthy(v: Option<string>) {
    v.Some? && v.value != ""
  }

  /** The two compiled patterns among the special refs. */
  datatype RefPattern =
    | ReleaseBranch  // ^release/v
    | VersionTag     // ^v\d+\.\d+

  /** A special ref is either a literal name or a pattern matched at the start. */
  datatype RefRule = Literal(name: string) | Pattern(pattern: RefPattern)

  const SpecialRefs: seq<RefRule> := [Literal("master"), Pattern(ReleaseBranch), Pattern(VersionTag)]

  /** re.match(r'^release/v', ref): the ref starts with "release/v". */
  predicate MatchesReleaseBranch(ref: string) {
    "release/v" <= ref
  }

  /** The length of the longest run of digits in s starting at position i. */
  function DigitRun(s: string, i: nat): (n: nat)
    requires i <= |s|
    ensures i + n <= |s|
    ensures forall j :: i <= j < i + n ==> IsDigit(s[j])
    ensures i + n < |s| ==> !IsDigit(s[i + n])
    decreases |s| - i
  {
    if i < |s| && IsDigit(s[i]) then 1 + DigitRun(s, i + 1) else 0
  }

  /**
   * A hand-written matcher for re.match(r'^v\d+\.\d+', ref): 'v', then the
   * greedy run of digits (at least one), then '.', then at least one digit.
   */
  predicate MatchesVersionTag(ref: string) {
    && |ref| > 0
    && ref[0] == 'v'
    && var n := DigitRun(ref, 1);
       && n > 0
       && 2 + n < |ref|
       && ref[1 + n] == '.'
       && IsDigit(ref[2 + n])
  }

  ghost predicate AllDigits(s: string) {
    forall i :: 0 <= i < |s| ==> IsDigit(s[i])
  }

  /** The language of the regular expression v\d+\.\d+ followed by anything. */
  ghost predicate VersionTagRegex(ref: string) {
    exists major: string, minor: string, rest: string ::
      && |major| > 0 && AllDigits(major)
      && |minor| > 0 && AllDigits(minor)
      && ref == "v" + major + "." + minor + rest
  }

  /** The greedy matcher accepts exactly the strings the pattern matches a prefix of. */
  lemma VersionTagMatchesRegex(ref: string)
    ensures MatchesVersionTag(ref) <==> VersionTagRegex(ref)
  {
    if MatchesVersionTag(ref) {
      var n := DigitRun(ref, 1);
      var major, minor, rest := ref[1..1 + n], ref[2 + n..3 + n], ref[3 + n..];
      assert AllDigits(major);
      assert ref == "v" + major + "." + minor + rest;
    }
    if VersionTagRegex(ref) {
      var major: string, minor: string, rest: string :|
        && |major| > 0 && AllDigits(major)
        && |minor| > 0 && AllDigits(minor)
        && ref == "v" + major + "." + minor + rest;
      var m := |major|;
      assert ref[0] == 'v';
      assert forall j :: 1 <= j < 1 + m ==> ref[j] == major[j - 1];
      assert ref[1 + m] == '.';
      assert ref[2 + m] == minor[0];
      assert DigitRun(ref, 1) == m;
    }
  }

  function RuleMatches(rule: RefRule, ref: string): bool {
    match rule
    case Literal(name) => ref == name
    case Pattern(ReleaseBranch) => MatchesReleaseBranch(ref)
    case Pattern(VersionTag) => MatchesVersionTag(ref)
  }

  /** The search over the special refs: true as soon as one rule matches. */
  function AnyRuleMatches(rules: seq<RefRule>, ref: string): (r: bool)
    ensures r <==> exists i :: 0 <= i < |rules| && RuleMatches(rules[i], ref)
  {
    if rules == [] then false
    else if RuleMatches(rules[0], ref) then true
    else AnyRuleMatches(rules[1..], ref)
  }

  /**
   * _judge_build_all, with the environment passed in explicitly. Total: the
   * model never fails (the source's type check at line 41 is an attribute
   * of older Python versions; the README's "Left out" section says so).
   */
  function JudgeBuildAll(buildAllFlag: bool, env: Env): (r: bool)
    // the explicit flag wins whatever the environment holds
    ensures buildAllFlag ==> r
    // so does a non-empty BUILD_ALL_APPS
    ensures Truthy(Getenv(env, BuildAllAppsVar)) ==> r
    // fail closed: without both CI variables nothing else can say yes
    ensures (&& !buildAllFlag
             && !Truthy(Getenv(env, BuildAllAppsVar))
             && !(Truthy(Getenv(env, RefNameVar)) && Truthy(Getenv(env, PipelineSourceVar))))
            ==> !r
  {
    if buildAllFlag then true
    else if Truthy(Getenv(env, BuildAllAppsVar)) then true
    else
      var ref := Getenv(env, RefNameVar);
      var pipelineSource := Getenv(env, PipelineSourceVar);
      if !Truthy(ref) || !Truthy(pipelineSource) then false
      else if pipelineSource.value == "schedule" then true
      else AnyRuleMatches(SpecialRefs, ref.value)
  }

  /** The refs that build everything: master, release/v..., v<digits>.<digits>... */
  ghost predicate IsSpecialRef(ref: string) {
    ref == "master" || MatchesReleaseBranch(ref) || VersionTagRegex(ref)
  }

  /** The search over SpecialRefs decides exactly IsSpecialRef. */
  lemma SpecialRefsMatch(ref: string)
    ensures AnyRuleMatches(SpecialRefs, ref) <==> IsSpecialRef(ref)
  {
    VersionTagMatchesRegex(ref);
    assert RuleMatches(SpecialRefs[0], ref) <==> ref == "master";
    assert RuleMatches(SpecialRefs[1], ref) <==> MatchesReleaseBranch(ref);
    assert RuleMatches(SpecialRefs[2], ref) <==> MatchesVersionTag(ref);
  }

  /**
   * The whole decision in one statement: build all exactly when the flag is
   * set, or BUILD_ALL_APPS is non-empty, or both CI variables are non-empty
   * and the pipeline is scheduled or the ref is a special ref.
   */
  lemma JudgeBuildAllSpec(buildAllFlag: bool, env: Env)
    ensures JudgeBuildAll(buildAllFlag, env) <==>
      || buildAllFlag
      || Truthy(Getenv(env, BuildAllAppsVar))
      || (&& Truthy(Getenv(env, RefNameVar))
          && Truthy(Getenv(env, PipelineSourceVar))
          && (|| Getenv(env, PipelineSourceVar).value == "schedule"
              || IsSpecialRef(Getenv(env, RefNameVar).value)))
  {
    if RefNameVar in env {
      SpecialRefsMatch(env[RefNameVar]);
    }
  }
}
