/**
 * What the detection table decides, stated about both detector copies:
 * precedence, the rules that can never win, single-marker roots and the
 * independence from everything but the marker files.
 */
module DetectionFacts {

  import opened ProjectTypes
  import opened Markers
  import opened DetectorService
  import DetectorLegacy

  /** The table decides exactly what the reference with shadowed rules removed decides. */
  lemma TableMatchesReference(w: Workspace)
    ensures Detect(w) == EffectiveType(w)
    ensures DetectorLegacy.DetectChain(w) == EffectiveType(w)
  {
    DetectorLegacy.ChainAgreesWithTable(w);
  }

  /** A root holding `package.json` is always a Node project, whatever else it holds. */
  lemma PackageJsonMeansNode(w: Workspace)
    requires FileExists(w, PackageJson)
    ensures Detect(w) == Node
    ensures DetectorLegacy.DetectChain(w) == Node
  {
    TableMatchesReference(w);
  }

  /**
   * Seven rules can never win: React, Vue and Express need `package.json`,
   * which the Node rule already claims; Flask repeats Django's predicate,
   * Symfony repeats Laravel's, Spring and Hibernate repeat Java's.
   */
  lemma ShadowedTypesNeverDetected(w: Workspace)
    ensures IsReactProject(w) ==> IsNodeProject(w)
    ensures IsVueProject(w) ==> IsNodeProject(w)
    ensures IsExpressProject(w) ==> IsNodeProject(w)
    ensures IsFlaskProject(w) == IsDjangoProject(w)
    ensures IsSymfonyProject(w) == IsLaravelProject(w)
    ensures IsSpringProject(w) == IsJavaProject(w) && IsHibernateProject(w) == IsJavaProject(w)
    ensures Detect(w) !in {React, Vue, Express, Flask, Symfony, Spring, Hibernate}
  {
    TableMatchesReference(w);
    ReferenceNeverShadowed(w);
  }

  /** The reference detector has no branch for the seven shadowed types. */
  lemma ReferenceNeverShadowed(w: Workspace)
    ensures EffectiveType(w) !in {React, Vue, Express, Flask, Symfony, Spring, Hibernate}
  {
  }

  /** The type a root holding only marker `m` resolves to, read off the rule order. */
  function SingleMarkerType(m: Marker): ProjectType {
    match m
    case PackageJson => Node
    case RequirementsTxt | SetupPy => Python
    case PomXml | BuildGradle => Java
    case Gemfile => Ruby
    case GoMod => Go
    case CargoToml => Rust
    case AngularJson => Angular
    case SvelteConfigJs => Svelte
    case NextConfigJs => NextJS
    case NuxtConfigJs => NuxtJS
    case ComposerJson => Laravel
    case ManagePy => Django
    case PubspecYaml => Flutter
    case PackageLockJson | YarnLock | NodeModules => Unknown
  }

  /**
   * With no project file for the .NET search, a root holding a single marker
   * resolves by that marker alone; a lone lock file or `node_modules` decides
   * nothing. Together with `NoMarkerDetection` this reaches every type that
   * `ShadowedTypesNeverDetected` does not exclude.
   */
  lemma SingleMarkerDetection(m: Marker)
    ensures Detect(OnlyMarker(m)) == SingleMarkerType(m)
    ensures DetectorLegacy.DetectChain(OnlyMarker(m)) == SingleMarkerType(m)
  {
    TableMatchesReference(OnlyMarker(m));
    ReferenceOnSingleMarker(m);
  }

  /** The reference detector on a root holding only marker `m`, one group of markers at a time. */
  lemma ReferenceOnSingleMarker(m: Marker)
    ensures EffectiveType(OnlyMarker(m)) == SingleMarkerType(m)
  {
    if m in {PackageJson, RequirementsTxt, SetupPy, PomXml, BuildGradle, Gemfile, GoMod, CargoToml} {
      LanguageMarker(m);
    } else if m in {AngularJson, SvelteConfigJs, NextConfigJs, NuxtConfigJs} {
      FrameworkMarker(m);
    } else if m in {ComposerJson, ManagePy, PubspecYaml} {
      LateMarker(m);
    } else {
      UndecidingMarker(m);
    }
  }

  /** The markers of the first seven rules. */
  lemma LanguageMarker(m: Marker)
    requires m in {PackageJson, RequirementsTxt, SetupPy, PomXml, BuildGradle, Gemfile, GoMod, CargoToml}
    ensures EffectiveType(OnlyMarker(m)) == SingleMarkerType(m)
  {
  }

  /** The markers that decide a framework rule on their own. */
  lemma FrameworkMarker(m: Marker)
    requires m in {AngularJson, SvelteConfigJs, NextConfigJs, NuxtConfigJs}
    ensures EffectiveType(OnlyMarker(m)) == SingleMarkerType(m)
  {
  }

  /** The markers of the last rules that can still win. */
  lemma LateMarker(m: Marker)
    requires m in {ComposerJson, ManagePy, PubspecYaml}
    ensures EffectiveType(OnlyMarker(m)) == SingleMarkerType(m)
  {
  }

  /** Lock files and `node_modules`, which only count next to `package.json`. */
  lemma UndecidingMarker(m: Marker)
    requires m in {PackageLockJson, YarnLock, NodeModules}
    ensures EffectiveType(OnlyMarker(m)) == SingleMarkerType(m)
  {
  }

  /** `requirements.txt` or `setup.py` without `package.json` is Python, never Django or Flask. */
  lemma PythonMarkersMeanPython(w: Workspace)
    requires !FileExists(w, PackageJson)
    requires FileExists(w, RequirementsTxt) || FileExists(w, SetupPy)
    ensures Detect(w) == Python
  {
    TableMatchesReference(w);
  }

  /**
   * A root that is missing, unreadable or holds no marker detects nothing but
   * the workspace-wide .NET search.
   */
  lemma NoMarkerDetection(w: Workspace)
    requires !w.rootAccessible || w.present == {}
    ensures Detect(w) == if w.dotnetMatch then DotNet else Unknown
  {
    TableMatchesReference(w);
    ReferenceWithoutMarkers(w);
  }

  /** The reference detector when no marker file exists. */
  lemma ReferenceWithoutMarkers(w: Workspace)
    requires !w.rootAccessible || w.present == {}
    ensures EffectiveType(w) == if w.dotnetMatch then DotNet else Unknown
  {
    assert forall m :: !FileExists(w, m);
  }
}
