/**
 * The marker predicate library shared by both detector copies: "does marker
 * file X exist at the project root", and the `is*Project` predicates built
 * from it.
 */
module Markers {

  /**
   * The file names the `is*Project` predicates look for at the root, in
   * constructor order: package.json, requirements.txt, setup.py, pom.xml,
   * build.gradle, Gemfile, go.mod, Cargo.toml, package-lock.json, yarn.lock,
   * angular.json, node_modules, svelte.config.js, next.config.js,
   * nuxt.config.js, composer.json, manage.py, pubspec.yaml.
   */
  datatype Marker =
    | PackageJson | RequirementsTxt | SetupPy | PomXml | BuildGradle
    | Gemfile | GoMod | CargoToml | PackageLockJson | YarnLock
    | AngularJson | NodeModules | SvelteConfigJs | NextConfigJs
    | NuxtConfigJs | ComposerJson | ManagePy | PubspecYaml

  /**
   * What the detector can observe of a workspace. `present` holds the markers
   * whose names exist below the root (no other name is ever asked about);
   * `rootAccessible` is false when the root itself is missing or unreadable.
   * `dotnetMatch` is the answer of the host's workspace-wide search for
   * `.csproj`, `.fsproj` or `.vbproj` project files in any directory (at
   * most one result), which does not look at the root path at all.
   */
  datatype Workspace = Workspace(rootAccessible: bool, present: set<Marker>, dotnetMatch: bool)

  /**
   * `fileExists(name)`: an existence check on the root joined with the
   * marker's file name that resolves to false on any access error instead of
   * failing, so it is total.
   */
  predicate FileExists(w: Workspace, m: Marker) {
    w.rootAccessible && m in w.present
  }

  /** The shared framework fallback: `package.json` plus `node_modules` or `yarn.lock`. */
  predicate NodeInstalled(w: Workspace) {
    FileExists(w, PackageJson) && (FileExists(w, NodeModules) || FileExists(w, YarnLock))
  }

  predicate IsNodeProject(w: Workspace) { FileExists(w, PackageJson) }

  predicate IsPythonProject(w: Workspace) {
    FileExists(w, RequirementsTxt) || FileExists(w, SetupPy)
  }

  predicate IsJavaProject(w: Workspace) {
    FileExists(w, PomXml) || FileExists(w, BuildGradle)
  }

  predicate IsDotNetProject(w: Workspace) { w.dotnetMatch }

  predicate IsRubyProject(w: Workspace) { FileExists(w, Gemfile) }

  predicate IsGoProject(w: Workspace) { FileExists(w, GoMod) }

  predicate IsRustProject(w: Workspace) { FileExists(w, CargoToml) }

  predicate IsReactProject(w: Workspace) {
    FileExists(w, PackageJson) && (FileExists(w, PackageLockJson) || FileExists(w, YarnLock))
  }

  // In the older copy these read `A || B && (C || D)`; `&&` binds tighter
  // than `||` in that language, so they are the same predicates.
  predicate IsAngularProject(w: Workspace) { FileExists(w, AngularJson) || NodeInstalled(w) }

  predicate IsVueProject(w: Workspace) { NodeInstalled(w) }

  predicate IsSvelteProject(w: Workspace) { FileExists(w, SvelteConfigJs) || NodeInstalled(w) }

  predicate IsNextProject(w: Workspace) { FileExists(w, NextConfigJs) || NodeInstalled(w) }

  predicate IsNuxtProject(w: Workspace) { FileExists(w, NuxtConfigJs) || NodeInstalled(w) }

  predicate IsLaravelProject(w: Workspace) { FileExists(w, ComposerJson) || NodeInstalled(w) }

  predicate IsSymfonyProject(w: Workspace) { FileExists(w, ComposerJson) || NodeInstalled(w) }

  predicate IsDjangoProject(w: Workspace) {
    FileExists(w, RequirementsTxt) || FileExists(w, ManagePy)
  }

  predicate IsFlaskProject(w: Workspace) {
    FileExists(w, RequirementsTxt) || FileExists(w, ManagePy)
  }

  predicate IsExpressProject(w: Workspace) { NodeInstalled(w) }

  predicate IsSpringProject(w: Workspace) {
    FileExists(w, PomXml) || FileExists(w, BuildGradle)
  }

  predicate IsHibernateProject(w: Workspace) {
    FileExists(w, PomXml) || FileExists(w, BuildGradle)
  }

  predicate IsFlutterProject(w: Workspace) { FileExists(w, PubspecYaml) || NodeInstalled(w) }

  /** A workspace whose accessible root holds exactly one marker and no project file matches the glob. */
  function OnlyMarker(m: Marker): (w: Workspace)
    ensures FileExists(w, m) && !w.dotnetMatch
  {
    Workspace(true, {m}, false)
  }

  /** A missing or unreadable root makes every existence check false. */
  lemma MissingRootHasNoFiles(w: Workspace, m: Marker)
    requires !w.rootAccessible
    ensures !FileExists(w, m)
  {
  }
}
