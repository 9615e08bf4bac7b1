# vscode-venv core, modelled in Dafny

vscode-venv is a Visual Studio Code extension that gives each project a
"virtual environment" of editor extensions. It does four things:

- It detects the project type from marker files in the workspace root, such as `package.json`, `requirements.txt`, `pom.xml` or `pubspec.yaml`.
- It keeps two extension profiles per project:
  - a *custom* profile that the user edits;
  - a *recommended* profile, generated once from the project type.
- It records which extensions are enabled in a per-project configuration file.
- It shows a panel that sorts the installed extensions into project-specific ones and general development tools.

The repository has two generations of this code. The newer one lives under
`src/services/` and `src/ui/`; the older one is `src/projectDetector.ts`,
`src/virtualEnviroment.ts` and `src/projectPanel.ts`. Both are modelled here.

| module | file | models |
|---|---|---|
| `Markers` | markers.dfy | the workspace as the detectors see it: root readable or not, the set of marker files present, the search for `.csproj`, `.fsproj` or `.vbproj` files; every `is…Project` predicate |
| `DetectorService` | detector_service.dfy | the rule table and the first-match loop of `ProjectDetector.detectProjectType` |
| `DetectorLegacy` | detector_legacy.dfy | the older if/else chain, proved equal to the table |
| `DetectionFacts` | detection_facts.dfy | what the detectors can and cannot return |
| `ProfileService` | profile_service.dfy | `ProfileManager`: loading, saving, generating, toggling and adding, as pure updates plus a class with the source's fields |
| `EnvironmentService` | environment_service.dfy | the set-based enablement store that `ProfileManager` uses |
| `EnvironmentLegacy` | environment_legacy.dfy | the older map-based enablement store, whose entries default to enabled |
| `LocalizationService` | localization_service.dfy | `getString` with JavaScript's first-occurrence `String.replace`, `loadLanguage` and the `getInstance` singleton |
| `Compatibility`, `PanelUi`, `PanelLegacy` | compatibility.dfy, panel_ui.dfy, panel_legacy.dfy | both panels' compatibility classifiers, the ui panel's message routing, and the older panel's partition of the installed extensions |
| `Text`, `Extensions`, `ProjectTypes`, `Options` | text.dfy, extensions.dfy, project_types.dfy, options.dfy | ASCII lower-casing, substring search, the extension records, the project-type names and `Option` |

The host is modelled as values. These become parameters:

- the installed extensions (`vscode.extensions.all`): a `Catalog`, in host order;
- the files on disk: `Option` values, where `None` means the file does not exist;
- the language files: a map from language to strings.

Host commands that change state are not executed. Each store appends them to an
`effects` log, so the order "write the file, then run the commands" can be
stated.

Two behaviours of the code are worth knowing before reading the contracts:

- With both `package.json` and `angular.json` present, both detectors return
  Node, because they test Node first (`DetectionFacts.PackageJsonMeansNode`).
- The store that `ProfileManager` uses (`src/services/VirtualEnviroment.ts`)
  is a set, and it treats an id that is not in the set as disabled. The older
  store (`src/virtualEnviroment.ts`) is a map, and it treats an id that is not
  in the map as enabled.

## Model

| member | source | states |
|---|---|---|
| Markers.MissingRootHasNoFiles | src/services/ProjectDetector.ts:51-57 | when the root cannot be read, `fileExists` resolves false for every marker (the access error is swallowed) |
| Markers.FileExists | src/services/ProjectDetector.ts:51-57 | (definition) `fileExists`: the marker is present and the root is readable; any access error reads as false |
| Markers.NodeInstalled | src/services/ProjectDetector.ts:102 | (definition) the shared fallback `package.json && (node_modules \|\| yarn.lock)` |
| Markers.IsNodeProject | src/services/ProjectDetector.ts:60-62 | (definition) `package.json` exists |
| Markers.IsPythonProject | src/services/ProjectDetector.ts:65-67 | (definition) `requirements.txt` or `setup.py` exists |
| Markers.IsJavaProject | src/services/ProjectDetector.ts:70-72 | (definition) `pom.xml` or `build.gradle` exists |
| Markers.IsDotNetProject | src/services/ProjectDetector.ts:75-78 | (definition) the project-file search found a file |
| Markers.IsRubyProject | src/services/ProjectDetector.ts:81-83 | (definition) `Gemfile` exists |
| Markers.IsGoProject | src/services/ProjectDetector.ts:86-88 | (definition) `go.mod` exists |
| Markers.IsRustProject | src/services/ProjectDetector.ts:91-93 | (definition) `Cargo.toml` exists |
| Markers.IsReactProject | src/services/ProjectDetector.ts:96-98 | (definition) `package.json` and one of `package-lock.json`, `yarn.lock` |
| Markers.IsAngularProject | src/services/ProjectDetector.ts:101-103 | (definition) `angular.json`, or the Node fallback |
| Markers.IsVueProject | src/services/ProjectDetector.ts:106-108 | (definition) the Node fallback alone |
| Markers.IsSvelteProject | src/services/ProjectDetector.ts:111-113 | (definition) `svelte.config.js`, or the Node fallback |
| Markers.IsNextProject | src/services/ProjectDetector.ts:116-118 | (definition) `next.config.js`, or the Node fallback |
| Markers.IsNuxtProject | src/services/ProjectDetector.ts:121-123 | (definition) `nuxt.config.js`, or the Node fallback |
| Markers.IsLaravelProject | src/services/ProjectDetector.ts:126-128 | (definition) `composer.json`, or the Node fallback |
| Markers.IsSymfonyProject | src/services/ProjectDetector.ts:131-133 | (definition) the same test as Laravel |
| Markers.IsDjangoProject | src/services/ProjectDetector.ts:136-138 | (definition) `requirements.txt` or `manage.py` exists |
| Markers.IsFlaskProject | src/services/ProjectDetector.ts:141-143 | (definition) the same test as Django |
| Markers.IsExpressProject | src/services/ProjectDetector.ts:146-148 | (definition) the Node fallback alone |
| Markers.IsSpringProject | src/services/ProjectDetector.ts:151-153 | (definition) the same test as Java |
| Markers.IsHibernateProject | src/services/ProjectDetector.ts:156-158 | (definition) the same test as Java |
| Markers.IsFlutterProject | src/services/ProjectDetector.ts:161-163 | (definition) `pubspec.yaml`, or the Node fallback |
| DetectorService.DetectionMethods | src/services/ProjectDetector.ts:17-39 | the table has exactly 21 rules; what its rules decide, in order, is proved equal to the reference decision by `DetectionFacts.TableMatchesReference` |
| DetectorService.FirstHit | src/services/ProjectDetector.ts:41-45 | when rule `i` is the first whose check holds, the loop returns rule `i`'s type |
| DetectorService.NoHit | src/services/ProjectDetector.ts:47 | when no check holds, the result is UNKNOWN |
| DetectorService.FirstMatch | src/services/ProjectDetector.ts:41-47 | (definition) the scan of the table; its meaning is stated by `FirstHit` and `NoHit` |
| DetectorService.Detect | src/services/ProjectDetector.ts:16-48 | (definition) the scan of the 21-rule table; proved equal to the reference decision by `DetectionFacts.TableMatchesReference` |
| DetectorService.DetectProjectType | src/services/ProjectDetector.ts:16-48 | the loop returns the type of the first matching rule in table order, or UNKNOWN |
| DetectorLegacy.DetectChain | src/projectDetector.ts:16-62 | the if/else chain returns what the reference decision (Node, Python, Java, .NET, Ruby, Go, Rust, Angular, Svelte, Next, Nuxt, Laravel, Django, Flutter, else UNKNOWN) returns |
| DetectorLegacy.ChainAgreesWithTable | src/projectDetector.ts:16-62 | for every workspace the older chain and the newer table detect the same type |
| DetectionFacts.TableMatchesReference | src/services/ProjectDetector.ts:16-48 | the table loop equals the reference decision, and so does the older chain |
| DetectionFacts.PackageJsonMeansNode | src/services/ProjectDetector.ts:17-18 | a `package.json` makes both detectors return Node, whatever else is present (angular.json included) |
| DetectionFacts.ShadowedTypesNeverDetected | src/services/ProjectDetector.ts:96-158 | React, Vue and Express imply Node; Flask equals Django; Symfony equals Laravel; Spring and Hibernate equal Java. So React, Vue, Express, Flask, Symfony, Spring and Hibernate are never detected |
| DetectionFacts.SingleMarkerDetection | src/services/ProjectDetector.ts:16-48 | for each marker file alone, both detectors return the type the marker names; a lock file or `node_modules` alone gives UNKNOWN |
| DetectionFacts.ReferenceOnSingleMarker | src/projectDetector.ts:16-62 | the reference decision on each single-marker workspace |
| DetectionFacts.PythonMarkersMeanPython | src/services/ProjectDetector.ts:65-67 | without `package.json`, `requirements.txt` or `setup.py` gives Python |
| DetectionFacts.NoMarkerDetection | src/services/ProjectDetector.ts:75-78 | with no readable marker, the result is .NET exactly when the search for `.csproj`, `.fsproj` or `.vbproj` files finds one, else UNKNOWN |
| ProfileService.LoadProfiles | src/services/ProfileManager.ts:27-33 | a missing file gives both defaults; a missing key falls back to its default; a present key is taken as stored |
| ProfileService.SaveLoadRoundTrip | src/services/ProfileManager.ts:35-41 | loading what `saveProfiles` wrote gives back both profiles |
| ProfileService.SaveDocument | src/services/ProfileManager.ts:35-41 | (definition) the document `{customProfile, recommendedProfile}`; `SaveLoadRoundTrip` states that loading it gives both profiles back |
| ProfileService.Entry | src/services/ProfileManager.ts:135-140 | a new entry has the extension's id and label, and is enabled and compatible |
| ProfileService.FindIndex | src/services/ProfileManager.ts:129 | `findIndex`: -1 when no entry has the id, else the first position that has it |
| ProfileService.ToggleRecommended | src/services/ProfileManager.ts:146-152 | same length, ids, names and compatibility flags; the enabled flag changes at the first entry for the id and nowhere else |
| ProfileService.AddCustom | src/services/ProfileManager.ts:154-167 | the old list is a prefix of the result, with at most one entry appended; the id is present afterwards iff it was present before or is installed; no other id changes |
| ProfileService.ToggleCustom | src/services/ProfileManager.ts:128-142 | (definition) splice out the first entry for the id, else append a fresh entry when installed; its meaning is stated by `ToggleCustomPresent`, `ToggleCustomAbsent`, `ToggleCustomFlips` and `ToggleCustomTwice` |
| ProfileService.RecommendedIds | src/services/ProfileManager.ts:75-126 | the list is empty exactly for a string that is no project type (UNKNOWN too gets the ESLint and Prettier pair); it has no duplicates |
| ProfileService.Select | src/services/ProfileManager.ts:65-72 | the filter never yields more entries than there are installed extensions |
| ProfileService.Chosen | src/services/ProfileManager.ts:66-72 | the filter and map applied to one extension yield at most one entry; `SelectMembers` states which entries the whole selection holds |
| ProfileService.SelectMembers | src/services/ProfileManager.ts:65-72 | the filter yields exactly the fresh entries of the installed extensions whose id is listed |
| ProfileService.SelectAppend | src/services/ProfileManager.ts:65-72 | filtering keeps host order (it distributes over concatenation) |
| ProfileService.SelectedAreInstalled | src/services/ProfileManager.ts:65-72 | every selected entry comes from an installed extension with a listed id |
| ProfileService.Generate | src/services/ProfileManager.ts:62-73 | nothing for a string that is no project type; every entry is enabled, compatible and recommended; every installed recommended extension is in the list |
| ProfileService.NextRecommended | src/services/ProfileManager.ts:53-60 | a non-empty list, or a call without a catalogue, leaves the list as it was |
| ProfileService.GeneratedOnce | src/services/ProfileManager.ts:53-60 | once the recommended list is non-empty, no later call regenerates it |
| ProfileService.RemoveFirstIsWithout | src/services/ProfileManager.ts:129-131 | with unique ids, splicing out the first entry for an id removes every entry for it and keeps the rest in order |
| ProfileService.RemoveAt | src/services/ProfileManager.ts:131 | splicing out the only entry for an id is a removal of that id |
| ProfileService.RemoveMiddle | src/services/ProfileManager.ts:131 | removing an id carried only by the middle entry keeps what is before and after it |
| ProfileService.WithoutMembers | src/services/ProfileManager.ts:131 | exactly the entries with another id survive a removal |
| ProfileService.WithoutAbsent | src/services/ProfileManager.ts:131 | removing an absent id changes nothing |
| ProfileService.WithoutAppend | src/services/ProfileManager.ts:131 | removal distributes over concatenation |
| ProfileService.ToggleCustomPresent | src/services/ProfileManager.ts:128-131 | toggling a present id removes its entry and nothing else, and ids stay unique |
| ProfileService.RemovalKeepsOthers | src/services/ProfileManager.ts:131 | dropping one position keeps ids unique and keeps every other id |
| ProfileService.ToggleCustomAbsent | src/services/ProfileManager.ts:132-142 | toggling an absent id appends a fresh entry when the extension is installed, and changes nothing otherwise |
| ProfileService.ToggleCustomFlips | src/services/ProfileManager.ts:128-144 | the id is present afterwards iff it was absent and is installed; no other id changes; ids stay unique |
| ProfileService.ToggleCustomTwice | src/services/ProfileManager.ts:128-144 | toggling twice restores an absent id's list; a present, installed id returns as a fresh enabled entry at the end |
| ProfileService.ToggleRecommendedTwice | src/services/ProfileManager.ts:146-152 | toggling a recommended entry twice restores the list |
| ProfileService.SameIdsSameIndex | src/services/ProfileManager.ts:129 | `findIndex` depends only on the ids |
| ProfileService.AddCustomIdempotent | src/services/ProfileManager.ts:154-167 | adding twice is adding once, and ids stay unique |
| ProfileService.ProfileManager.constructor | src/services/ProfileManager.ts:18-25 | both profiles are loaded from the document, and a fresh enablement store is loaded from its own file |
| ProfileService.ProfileManager.SaveProfiles | src/services/ProfileManager.ts:35-41 | the file afterwards holds both current profiles |
| ProfileService.ProfileManager.GetCustomProfile | src/services/ProfileManager.ts:43-45 | returns the stored custom profile |
| ProfileService.ProfileManager.CreateProfile | src/services/ProfileManager.ts:47-51 | the named profile's list is emptied, its name and the other profile are kept, and both are saved |
| ProfileService.ProfileManager.GetRecommendedProfile | src/services/ProfileManager.ts:53-60 | the list advances by `NextRecommended`; it is saved exactly when it was generated |
| ProfileService.ProfileManager.ToggleCustomExtension | src/services/ProfileManager.ts:128-144 | the custom list advances by `ToggleCustom`, and the file is always rewritten |
| ProfileService.ProfileManager.ToggleRecommendedExtension | src/services/ProfileManager.ts:146-152 | the recommended list advances by `ToggleRecommended`; it is saved only when the id was found |
| ProfileService.ProfileManager.AddCustomExtension | src/services/ProfileManager.ts:154-167 | the custom list advances by `AddCustom`; it is saved only when it changed |
| ProfileService.ProfileManager.ApplyProfile | src/services/ProfileManager.ts:169-172 | the chosen profile's entries are applied to the store, then the file is written, then one enable or disable command is issued per installed extension |
| EnvironmentService.LoadActive | src/services/VirtualEnviroment.ts:17-22 | a missing file or key gives the empty set; otherwise the set of the listed ids |
| EnvironmentService.Step | src/services/VirtualEnviroment.ts:31-35 | (definition) one iteration: add the id when the entry is enabled, else delete it |
| EnvironmentService.ApplyEntries | src/services/VirtualEnviroment.ts:30-36 | (definition) the loop over the entries; `ActiveIffLastEnabled` and `ApplyTwiceIsApplyOnce` state its meaning |
| EnvironmentService.LastEntry | src/services/VirtualEnviroment.ts:30-36 | the last entry for an id, present exactly when some entry has that id |
| EnvironmentService.ActiveIffLastEnabled | src/services/VirtualEnviroment.ts:30-36 | after the loop, an id is active iff its last entry is enabled, or it has no entry and was active before |
| EnvironmentService.ApplyTwiceIsApplyOnce | src/services/VirtualEnviroment.ts:29-36 | applying the same entries twice is applying them once |
| EnvironmentService.StateCommands | src/services/VirtualEnviroment.ts:41-49 | one command per installed extension, in host order: enable if active, else disable |
| EnvironmentService.VirtualEnvironment.constructor | src/services/VirtualEnviroment.ts:10-15 | the set is loaded from the file, and nothing has been issued yet |
| EnvironmentService.VirtualEnvironment.SaveConfig | src/services/VirtualEnviroment.ts:24-27 | writes a duplicate-free list of exactly the active ids |
| EnvironmentService.VirtualEnvironment.ApplyProfile | src/services/VirtualEnviroment.ts:29-39 | the set becomes `ApplyEntries` of the old set; the file then lists it without duplicates; the commands follow the write |
| EnvironmentService.VirtualEnvironment.UpdateExtensionStates | src/services/VirtualEnviroment.ts:41-49 | issues `StateCommands` and changes nothing else |
| EnvironmentService.VirtualEnvironment.IsExtensionEnabled | src/services/VirtualEnviroment.ts:51-53 | true iff the id is in the set |
| EnvironmentService.SavedConfigReloads | src/services/VirtualEnviroment.ts:17-27 | loading a saved list gives back the set |
| EnvironmentLegacy.LoadStates | src/virtualEnviroment.ts:16-21 | a missing file or key gives the empty map; otherwise the stored map |
| EnvironmentLegacy.Enabled | src/virtualEnviroment.ts:34-36 | (definition) `states[id] !== false`: an id missing from the map counts as enabled |
| EnvironmentLegacy.ContextKey | src/virtualEnviroment.ts:43 | (definition) the context key `<id>:enabled` |
| EnvironmentLegacy.StateEffect | src/virtualEnviroment.ts:38-49 | (definition) one `setContext` command carrying the enabled state when the extension is installed, none otherwise |
| EnvironmentLegacy.StateEffects | src/virtualEnviroment.ts:51-55 | (definition) the commands for a list of ids, in list order |
| EnvironmentLegacy.Toggled | src/virtualEnviroment.ts:29 | adds the id to the keys and leaves the other entries alone; the id is enabled afterwards iff it was unrecorded or recorded false |
| EnvironmentLegacy.VirtualEnvironment.constructor | src/virtualEnviroment.ts:10-14 | the map is loaded from the file |
| EnvironmentLegacy.VirtualEnvironment.SaveConfig | src/virtualEnviroment.ts:23-26 | the file afterwards holds the current map |
| EnvironmentLegacy.VirtualEnvironment.ToggleExtension | src/virtualEnviroment.ts:28-32 | the map becomes `Toggled`, and is saved before the context key is set |
| EnvironmentLegacy.VirtualEnvironment.IsExtensionEnabled | src/virtualEnviroment.ts:34-36 | false exactly when the id is recorded as false (enabled by default) |
| EnvironmentLegacy.VirtualEnvironment.ApplyExtensionState | src/virtualEnviroment.ts:38-49 | sets the id's context key to its enabled state when the extension is installed, and does nothing otherwise |
| EnvironmentLegacy.VirtualEnvironment.ApplyAllExtensionStates | src/virtualEnviroment.ts:51-55 | visits every recorded id exactly once, in some order, applying each one's state in that order |
| EnvironmentLegacy.ToggleTwiceRestores | src/virtualEnviroment.ts:29 | toggling a recorded id twice restores the map |
| EnvironmentLegacy.FirstToggleKeepsEnabled | src/virtualEnviroment.ts:29-35 | the first toggle of an unrecorded id records `true`, so an extension that is enabled by default stays enabled |
| EnvironmentLegacy.ToggleFlipsRecorded | src/virtualEnviroment.ts:29-35 | toggling a recorded id flips its enabled state and no other id's |
| EnvironmentLegacy.SavedConfigReloads | src/virtualEnviroment.ts:16-26 | loading the saved map gives it back |
| LocalizationService.Lookup | src/services/LocalizationManager.ts:29 | `strings[key] \|\| key`: the stored text, or the key itself when the text is missing or empty |
| LocalizationService.Placeholder | src/services/LocalizationManager.ts:31 | the pattern `{i}`: at least three characters, opening with `{` and closing with `}` around the decimal digits of `i` |
| LocalizationService.Expand | src/services/LocalizationManager.ts:31 | (definition) `String.replace`'s replacement patterns: `$$`, `$&`, `` $` `` and `$'`; `ExpandLiteral` and `DollarAmpersandKeepsPlaceholder` state its effect |
| LocalizationService.Substitute | src/services/LocalizationManager.ts:30-32 | (definition) the `forEach` over the parameters, in index order; `NoPlaceholdersUnchanged`, `FirstPlaceholderOnly` and the concrete lemmas state its meaning |
| LocalizationService.ExpandLiteral | src/services/LocalizationManager.ts:31 | a replacement without `$` is inserted literally |
| LocalizationService.ReplaceFirst | src/services/LocalizationManager.ts:31 | no occurrence: unchanged; else, for a `$`-free replacement, only the first occurrence is replaced |
| LocalizationService.NoPlaceholdersUnchanged | src/services/LocalizationManager.ts:28-34 | a template without `{0}`…`{n-1}` comes back unchanged |
| LocalizationService.FirstPlaceholderOnly | src/services/LocalizationManager.ts:30-32 | one parameter fills only the first `{0}` |
| LocalizationService.LoadedStrings | src/services/LocalizationManager.ts:19-26 | an existing language file replaces the strings; a missing one keeps the current strings |
| LocalizationService.LocalizationManager.constructor | src/services/LocalizationManager.ts:8-10 | starts with the English strings, or none if there is no English file |
| LocalizationService.LocalizationManager.LoadLanguage | src/services/LocalizationManager.ts:19-26 | the strings become `LoadedStrings` of the old strings |
| LocalizationService.LocalizationManager.GetString | src/services/LocalizationManager.ts:28-34 | the looked-up text with parameter `i` substituted for the first `{i}`, for i = 0, 1, … in order |
| LocalizationService.Registry.GetInstance | src/services/LocalizationManager.ts:12-17 | the first call creates and records a manager; every later call returns that same object |
| LocalizationService.MissingKeyEchoes | src/services/LocalizationManager.ts:29 | a missing key comes back as itself |
| LocalizationService.LaterParameterFillsEarlierOutput | src/services/LocalizationManager.ts:30-32 | a parameter containing `{1}` is filled in by the next parameter |
| LocalizationService.RepeatedPlaceholderFilledOnce | src/services/LocalizationManager.ts:31 | `{0}{0}` with one parameter keeps its second `{0}` |
| LocalizationService.ReplaceFirstKeepsLaterOccurrence | src/services/LocalizationManager.ts:31 | `replace` on `{0}{0}` leaves the second occurrence |
| LocalizationService.DollarAmpersandKeepsPlaceholder | src/services/LocalizationManager.ts:31 | the parameter `$&` reinserts the matched `{0}` rather than the text `$&` |
| Extensions.Label | src/services/ProfileManager.ts:69 | `displayName \|\| id`: the display name when it is set and non-empty, else the id |
| Extensions.GetExtension | src/services/ProfileManager.ts:133 | `getExtension`: an installed extension with that id, and `None` exactly when no installed extension has it |
| Compatibility.IsGeneralTool | src/ui/ProjectPanel.ts:189-191 | (definition) some tool, lower-cased, occurs in the lower-cased label |
| Compatibility.MentionsTool | src/ui/ProjectPanel.ts:191 | (definition) `tools.some(tool => name.includes(tool.toLowerCase()))`, tool by tool |
| Compatibility.IdHas | src/ui/ProjectPanel.ts:188 | (definition) the lower-cased id contains the text |
| Compatibility.IsScriptTooling | src/ui/ProjectPanel.ts:200 | (definition) the id mentions node, javascript or typescript |
| Compatibility.JavaScriptHasJava | src/ui/ProjectPanel.ts:200-204 | an id containing `javascript` also contains `java` |
| Compatibility.GeneralToolIgnoresIdCase | src/ui/ProjectPanel.ts:188-192 | the general-tool test does not depend on the case of the id |
| PanelUi.TypeRule | src/ui/ProjectPanel.ts:195-210 | (definition) the type switch applied to an extension that is no general tool |
| PanelUi.HasRule | src/ui/ProjectPanel.ts:195-210 | (definition) the types the switch lists: Node, React, Angular, Vue, Python, Java, .NET, Flutter |
| PanelUi.IsExtensionCompatible | src/ui/ProjectPanel.ts:187-212 | general tools are always compatible; a type without a case (Ruby, Go, … and strings that are no type) accepts exactly the general tools |
| PanelUi.ScriptFamilyRule | src/ui/ProjectPanel.ts:195-200 | for Node, React, Angular and Vue, a non-general extension is compatible iff its id mentions node, javascript or typescript |
| PanelUi.JavaScriptCompatibleWithJava | src/ui/ProjectPanel.ts:203-204 | the substring test makes every JavaScript extension compatible with a Java project |
| PanelUi.CompatibilityIgnoresIdCase | src/ui/ProjectPanel.ts:187-212 | the verdict does not depend on the case of the id |
| PanelUi.Route | src/ui/ProjectPanel.ts:104-126 | toggle messages go to the custom or recommended store by profile type; any other profile type only refreshes; applyProfile picks custom iff the type is `custom`; every other command does nothing |
| PanelUi.ProjectPanel.HandleMessage | src/ui/ProjectPanel.ts:104-137 | the routed action is carried out on the profile manager, and nothing else changes |
| PanelLegacy.TypeRule | src/projectPanel.ts:155-188 | (definition) the wider type switch, which has a case for every type but UNKNOWN |
| PanelLegacy.IsExtensionCompatible | src/projectPanel.ts:145-189 | general tools are always compatible; UNKNOWN and non-type strings accept exactly the general tools |
| PanelLegacy.AgreesWithUiOnSharedTypes | src/projectPanel.ts:145-189 | on the types both switches list, the two classifiers agree |
| PanelLegacy.WiderThanUi | src/projectPanel.ts:145-189 | whatever the ui classifier accepts, the older one accepts |
| PanelLegacy.FrameworksFollowTheirLanguage | src/projectPanel.ts:155-185 | each framework accepts exactly what its language accepts |
| PanelLegacy.MakeRow | src/projectPanel.ts:57-69 | (definition) one list item; `RowFields` states its fields |
| PanelLegacy.GeneralSide | src/projectPanel.ts:59 | (definition) the general-tool test that picks the list |
| PanelLegacy.RowMaker | src/projectPanel.ts:57-69 | (definition) `MakeRow` for a fixed type, tool list and store |
| PanelLegacy.Split | src/projectPanel.ts:56-76 | (definition) the `forEach` push onto one of two lists, in catalogue order; `SplitSizes` and `SplitKeepsEveryId` state its meaning |
| PanelLegacy.Rows | src/projectPanel.ts:53-76 | (definition) the two lists for a catalogue, a project type and a store |
| PanelLegacy.RowFields | src/projectPanel.ts:57-66 | a row carries the id, the display label, the compatibility verdict and the enabled state |
| PanelLegacy.SplitSizes | src/projectPanel.ts:56-76 | the two lists together have as many rows as there are extensions |
| PanelLegacy.SplitKeepsEveryId | src/projectPanel.ts:56-76 | each id occurs as often in the two lists together as in the catalogue |
| PanelLegacy.EachExtensionOnce | src/projectPanel.ts:56-76 | the partition loses and duplicates no extension |
| PanelLegacy.Partition | src/projectPanel.ts:53-76 | the loop builds the project-specific and general lists, in host order |
| PanelLegacy.ProjectPanel.HandleMessage | src/projectPanel.ts:115-134 | `toggleExtension` toggles the id in the store; any other command changes nothing |

## Left out

- The host calls are not modelled: rendering HTML, redrawing the panel, `showInformationMessage`, `console.error`, and creating or disposing the panel. Panels keep only the state their handlers change.
- JSON parsing and file I/O are not modelled. A configuration file is an `Option` of its parsed value, and malformed JSON is not modelled. Writing a file replaces that value.
- `await` and the ordering of asynchronous calls are not modelled. Each operation runs to completion, and the store's command log keeps the source's order.
- `fileExists` is a parameter. An `fs.access` error is folded into `rootAccessible` and the set of present markers. The search `findFiles('**/*.{csproj,fsproj,vbproj}', null, 1)` is the boolean `dotnetMatch`.
- The ui panel's `_createProfile` has an empty body, so `createProfile` messages do nothing. `ProfileManager.createProfile` is modelled on its own.
- The ui panel calls `getRecommendedProfile` without a catalogue, which leaves the list alone. That is the `None` case of `NextRecommended`.
- The ui panel's `_isExtensionCompatible` is modelled, but the panel itself never calls it.
- Lower-casing is ASCII-only, and Unicode case mapping is not modelled.
- Lookups never reach keys inherited from `Object.prototype`: `strings[key]` is a map lookup.
- The private static `instance` becomes a `Registry` object that holds the field.
- `ProfileService.ProfileManager.GetCustomProfile` returns the profile by value. The aliasing that lets a caller mutate the stored profile through the returned object is not modelled.
- `ProfileManager` and the panels each create their own `VirtualEnvironment`, which shares a configuration path with the others. The model gives each its own file value and does not model two stores overwriting each other's file.
- `EnvironmentLegacy.VirtualEnvironment.ApplyAllExtensionStates`: `for … in` visits keys in insertion order. The model leaves the order open and proves each key is visited exactly once.
- `EnvironmentService.VirtualEnvironment.SaveConfig`: `Array.from` on a `Set` lists ids in insertion order. The model leaves the order open and proves the list holds each id exactly once.
- `PanelLegacy.EachExtensionOnce` states conservation as per-id occurrence counts, not as a multiset equality.
- The `PROJECT_TYPES` constants file is not part of this model. The type names are a datatype whose values are assumed distinct, plus `Other` for any other string.
