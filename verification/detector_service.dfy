/**
 * The rule-table detector: an ordered list of (predicate, project type) pairs
 * walked by one loop that returns the type of the first rule whose predicate
 * holds, and `Unknown` when none does.
 */
module DetectorService {

  import opened ProjectTypes
  import opened Markers

  /** One entry of the `detectionMethods` table. */
  datatype Rule = Rule(check: Workspace -> bool, result: ProjectType)

  /** The `detectionMethods` table, in its fixed order. */
  function DetectionMethods(): (rules: seq<Rule>)
    ensures |rules| == 21
  {
    [ Rule(IsNodeProject, Node),
      Rule(IsPythonProject, Python),
      Rule(IsJavaProject, Java),
      Rule(IsDotNetProject, DotNet),
      Rule(IsRubyProject, Ruby),
      Rule(IsGoProject, Go),
      Rule(IsRustProject, Rust),
      Rule(IsReactProject, React),
      Rule(IsAngularProject, Angular),
      Rule(IsVueProject, Vue),
      Rule(IsSvelteProject, Svelte),
      Rule(IsNextProject, NextJS),
      Rule(IsNuxtProject, NuxtJS),
      Rule(IsLaravelProject, Laravel),
      Rule(IsSymfonyProject, Symfony),
      Rule(IsDjangoProject, Django),
      Rule(IsFlaskProject, Flask),
      Rule(IsExpressProject, Express),
      Rule(IsSpringProject, Spring),
      Rule(IsHibernateProject, Hibernate),
      Rule(IsFlutterProject, Flutter) ]
  }

  /** The type of the first rule in `rules` whose predicate holds, `Unknown` if none holds. */
  function FirstMatch(rules: seq<Rule>, w: Workspace): ProjectType
  {
    if rules == [] then Unknown
    else if rules[0].check(w) then rules[0].result
    else FirstMatch(rules[1..], w)
  }

  /** The first rule that holds decides the result, whatever the rules after it say. */
  lemma {:induction false} FirstHit(rules: seq<Rule>, w: Workspace, i: nat)
    requires i < |rules| && rules[i].check(w)
    requires forall j :: 0 <= j < i ==> !rules[j].check(w)
    ensures FirstMatch(rules, w) == rules[i].result
  {
    if i > 0 {
      FirstHit(rules[1..], w, i - 1);
    }
  }

  /** When no rule holds the result is `Unknown`. */
  lemma {:induction false} NoHit(rules: seq<Rule>, w: Workspace)
    requires forall j :: 0 <= j < |rules| ==> !rules[j].check(w)
    ensures FirstMatch(rules, w) == Unknown
  {
    if rules != [] {
      NoHit(rules[1..], w);
    }
  }

  /** What `detectProjectType` computes for a workspace. */
  function Detect(w: Workspace): ProjectType {
    FirstMatch(DetectionMethods(), w)
  }

  /** `detectProjectType`: the `for...of` loop over the table with an early return. */
  method DetectProjectType(w: Workspace) returns (t: ProjectType)
    ensures t == Detect(w)
  {
    var rules := DetectionMethods();
    for i := 0 to |rules|
      invariant FirstMatch(rules[i..], w) == FirstMatch(rules, w)
    {
      if rules[i].check(w) {
        return rules[i].result;
      }
      assert rules[i..][1..] == rules[i + 1..];
    }
    return Unknown;
  }

  /**
   * A reference definition of the detector with every shadowed rule and every
   * shadowed disjunct removed: what the table actually decides.
   */
  function EffectiveType(w: Workspace): ProjectType {
    if FileExists(w, PackageJson) then Node
    else if FileExists(w, RequirementsTxt) || FileExists(w, SetupPy) then Python
    else if FileExists(w, PomXml) || FileExists(w, BuildGradle) then Java
    else if w.dotnetMatch then DotNet
    else if FileExists(w, Gemfile) then Ruby
    else if FileExists(w, GoMod) then Go
    else if FileExists(w, CargoToml) then Rust
    else if FileExists(w, AngularJson) then Angular
    else if FileExists(w, SvelteConfigJs) then Svelte
    else if FileExists(w, NextConfigJs) then NextJS
    else if FileExists(w, NuxtConfigJs) then NuxtJS
    else if FileExists(w, ComposerJson) then Laravel
    else if FileExists(w, ManagePy) then Django
    else if FileExists(w, PubspecYaml) then Flutter
    else Unknown
  }
}
