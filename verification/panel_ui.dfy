/**
 * The services-layer panel: its compatibility classifier and the routing of
 * the messages its page posts (`toggleExtension`, `createProfile`,
 * `applyProfile`) to the profile store.
 */
module PanelUi {

  import opened Options
  import opened Text
  import opened ProjectTypes
  import opened Extensions
  import opened Compatibility
  import opened ProfileService
  import EnvironmentService

  /** The type switch of `_isExtensionCompatible`, applied when the extension is no general tool. */
  predicate TypeRule(t: TypeName, e: Extension) {
    match t
    case Known(Node) | Known(React) | Known(Angular) | Known(Vue) => IsScriptTooling(e)
    case Known(Python) => IdHas(e, "python")
    case Known(Java) => IdHas(e, "java")
    case Known(DotNet) => IdHas(e, "csharp") || IdHas(e, "dotnet")
    case Known(Flutter) => IdHas(e, "flutter") || IdHas(e, "dart")
    case _ => false
  }

  /** The types this classifier has a rule for. */
  predicate HasRule(t: TypeName) {
    t in {Known(Node), Known(React), Known(Angular), Known(Vue), Known(Python), Known(Java), Known(DotNet), Known(Flutter)}
  }

  /** `_isExtensionCompatible`: a general tool is compatible with every type; otherwise the type's rule decides. */
  function IsExtensionCompatible(e: Extension, t: TypeName, tools: seq<string>): (r: bool)
    ensures IsGeneralTool(e, tools) ==> r
    ensures !HasRule(t) ==> (r <==> IsGeneralTool(e, tools))
  {
    IsGeneralTool(e, tools) || TypeRule(t, e)
  }

  /** For Node, React, Angular and Vue, a non-general extension is compatible iff its identifier names a script tool. */
  lemma ScriptFamilyRule(e: Extension, t: ProjectType, tools: seq<string>)
    requires t in {Node, React, Angular, Vue} && !IsGeneralTool(e, tools)
    ensures IsExtensionCompatible(e, Known(t), tools) <==> IsScriptTooling(e)
  {
  }

  /** Java's rule is a substring test, so every JavaScript extension is compatible with Java projects. */
  lemma JavaScriptCompatibleWithJava(e: Extension, tools: seq<string>)
    requires IdHas(e, "javascript")
    ensures IsExtensionCompatible(e, Known(Java), tools)
  {
    JavaScriptHasJava(e);
  }

  /** The classification does not depend on the case of the identifier. */
  lemma CompatibilityIgnoresIdCase(e: Extension, t: TypeName, tools: seq<string>)
    ensures IsExtensionCompatible(e, t, tools) == IsExtensionCompatible(e.(id := ToLower(e.id)), t, tools)
  {
    GeneralToolIgnoresIdCase(e, tools);
    ToLowerIdempotent(e.id);
    assert ToLower(e.(id := ToLower(e.id)).id) == ToLower(e.id);
  }

  /** A message posted by the page; a missing field reads as the empty string. */
  datatype Message = Message(command: string, profileType: string, extensionId: string)

  /** What handling a message does to the profile store. */
  datatype Action =
    | ToggleCustomEntry(id: string)
    | ToggleRecommendedEntry(id: string)
    | Apply(kind: ProfileKind)
    | Refresh       // a toggle for neither profile: only the page is redrawn
    | Ignore        // an unknown command, or `createProfile`, whose handler is empty

  /** `_handleMessage` together with `_toggleExtension` and `_applyProfile`. */
  function Route(m: Message): (a: Action)
    ensures a.ToggleCustomEntry? <==> m.command == "toggleExtension" && m.profileType == "custom"
    ensures a.ToggleRecommendedEntry? <==> m.command == "toggleExtension" && m.profileType == "recommended"
    ensures a.Refresh? <==> m.command == "toggleExtension" && m.profileType != "custom" && m.profileType != "recommended"
    ensures a.Apply? <==> m.command == "applyProfile"
    ensures a.Apply? ==> (a.kind == Custom <==> m.profileType == "custom")
    ensures a.ToggleCustomEntry? || a.ToggleRecommendedEntry? ==> a.id == m.extensionId
    ensures m.command != "toggleExtension" && m.command != "applyProfile" ==> a == Ignore
  {
    if m.command == "toggleExtension" then
      if m.profileType == "custom" then ToggleCustomEntry(m.extensionId)
      else if m.profileType == "recommended" then ToggleRecommendedEntry(m.extensionId)
      else Refresh
    else if m.command == "createProfile" then Ignore
    else if m.command == "applyProfile" then Apply(if m.profileType == "custom" then Custom else Recommended)
    else Ignore
  }

  class ProjectPanel {
    const profileManager: ProfileManager

    constructor (profileManager: ProfileManager)
      ensures this.profileManager == profileManager
    {
      this.profileManager := profileManager;
    }

    /** Performs the routed action on the profile store; redrawing the page is not modelled. */
    method HandleMessage(m: Message, installed: Catalog)
      modifies profileManager, profileManager.environment
      ensures Route(m).ToggleCustomEntry? ==>
        profileManager.customProfile == old(profileManager.customProfile).(extensions :=
          ToggleCustom(old(profileManager.customProfile.extensions), m.extensionId, installed))
        && profileManager.recommendedProfile == old(profileManager.recommendedProfile)
        && profileManager.file == Some(SaveDocument(Profiles(profileManager.customProfile, profileManager.recommendedProfile)))
        && unchanged(profileManager.environment)
      ensures Route(m).ToggleRecommendedEntry? ==>
        profileManager.recommendedProfile == old(profileManager.recommendedProfile).(extensions :=
          ToggleRecommended(old(profileManager.recommendedProfile.extensions), m.extensionId))
        && profileManager.customProfile == old(profileManager.customProfile)
        && (HasId(old(profileManager.recommendedProfile.extensions), m.extensionId) ==>
              profileManager.file == Some(SaveDocument(Profiles(profileManager.customProfile, profileManager.recommendedProfile))))
        && (!HasId(old(profileManager.recommendedProfile.extensions), m.extensionId) ==>
              profileManager.file == old(profileManager.file))
        && unchanged(profileManager.environment)
      ensures Route(m).Apply? ==>
        unchanged(profileManager)
        && profileManager.environment.activeExtensions == EnvironmentService.ApplyEntries(
             old(profileManager.environment.activeExtensions),
             if Route(m).kind == Custom then profileManager.customProfile.extensions
             else profileManager.recommendedProfile.extensions)
        && profileManager.environment.file.Some?
        && profileManager.environment.file.value.activeExtensions.Some?
        && Elements(profileManager.environment.file.value.activeExtensions.value) == profileManager.environment.activeExtensions
        && profileManager.environment.effects == old(profileManager.environment.effects)
           + [EnvironmentService.Wrote(profileManager.environment.file.value)]
           + EnvironmentService.StateCommands(profileManager.environment.activeExtensions, installed)
      ensures Route(m).Refresh? || Route(m).Ignore? ==>
        unchanged(profileManager) && unchanged(profileManager.environment)
    {
      match Route(m)
      case ToggleCustomEntry(id) => profileManager.ToggleCustomExtension(id, installed);
      case ToggleRecommendedEntry(id) => profileManager.ToggleRecommendedExtension(id);
      case Apply(kind) => profileManager.ApplyProfile(kind, installed);
      case Refresh =>
      case Ignore =>
    }
  }
}
