/**
 * The enablement store of the services layer: a set of active extension
 * identifiers, persisted as a list, updated from a profile's entries and then
 * pushed to the host as one enable or disable command per installed extension.
 * An identifier that is not in the set counts as disabled.
 */
module EnvironmentService {

  import opened Options
  import opened Extensions
  import opened Text

  /** The persisted document `{activeExtensions: [...]}`; the key may be missing. */
  datatype Config = Config(activeExtensions: Option<seq<string>>)

  /** What the store does outside itself, in order: writes of its document and host commands. */
  datatype Effect =
    | Wrote(config: Config)
    | EnableExtension(id: string)   // workbench.extensions.enableExtension
    | DisableExtension(id: string)  // workbench.extensions.disableExtension

  /** `loadConfig`: a missing file or a missing key gives the empty set. */
  function LoadActive(file: Option<Config>): (r: set<string>)
    ensures file.None? ==> r == {}
    ensures file.Some? && file.value.activeExtensions.None? ==> r == {}
    ensures file.Some? && file.value.activeExtensions.Some? ==>
      forall x :: x in r <==> x in file.value.activeExtensions.value
  {
    match file
    case None => {}
    case Some(config) => Elements(config.activeExtensions.GetOr([]))
  }

  /** One iteration of the `applyProfile` loop: add an enabled entry's id, delete a disabled one's. */
  function Step(active: set<string>, entry: ExtensionInfo): set<string> {
    if entry.isEnabled then active + {entry.id} else active - {entry.id}
  }

  /** The set after the `applyProfile` loop has run over `entries` in order. */
  function ApplyEntries(active: set<string>, entries: seq<ExtensionInfo>): set<string> {
    if entries == [] then active
    else Step(ApplyEntries(active, entries[..|entries| - 1]), entries[|entries| - 1])
  }

  /** The last entry of the list with identifier `id`, if any. */
  function LastEntry(entries: seq<ExtensionInfo>, id: string): (r: Option<ExtensionInfo>)
    ensures r.None? <==> !HasId(entries, id)
    ensures r.Some? ==> r.value.id == id && r.value in entries
  {
    if entries == [] then None
    else if entries[|entries| - 1].id == id then Some(entries[|entries| - 1])
    else LastEntry(entries[..|entries| - 1], id)
  }

  /**
   * After applying a list of entries, an identifier is active exactly when the
   * last entry naming it is enabled; an identifier no entry names keeps its
   * membership.
   */
  lemma {:induction false} ActiveIffLastEnabled(active: set<string>, entries: seq<ExtensionInfo>, id: string)
    ensures id in ApplyEntries(active, entries) <==>
      match LastEntry(entries, id)
      case Some(e) => e.isEnabled
      case None => id in active
  {
    if entries != [] {
      ActiveIffLastEnabled(active, entries[..|entries| - 1], id);
    }
  }

  /** Applying the same entries a second time changes nothing. */
  lemma ApplyTwiceIsApplyOnce(active: set<string>, entries: seq<ExtensionInfo>)
    ensures ApplyEntries(ApplyEntries(active, entries), entries) == ApplyEntries(active, entries)
  {
    var once := ApplyEntries(active, entries);
    forall id
      ensures id in ApplyEntries(once, entries) <==> id in once
    {
      ActiveIffLastEnabled(once, entries, id);
      ActiveIffLastEnabled(active, entries, id);
    }
  }

  /** `updateExtensionStates`: one command per installed extension, in host order. */
  function StateCommands(active: set<string>, installed: Catalog): (r: seq<Effect>)
    ensures |r| == |installed|
    ensures forall i :: 0 <= i < |installed| ==>
      r[i] == if installed[i].id in active then EnableExtension(installed[i].id) else DisableExtension(installed[i].id)
  {
    if installed == [] then []
    else
      var last := installed[|installed| - 1];
      StateCommands(active, installed[..|installed| - 1])
        + [if last.id in active then EnableExtension(last.id) else DisableExtension(last.id)]
  }

  class VirtualEnvironment {
    var activeExtensions: set<string>
    /** The persisted document; None while no file exists. */
    var file: Option<Config>
    var effects: seq<Effect>

    /** Construction loads the persisted set. */
    constructor (file: Option<Config>)
      ensures activeExtensions == LoadActive(file)
      ensures this.file == file && effects == []
    {
      activeExtensions := LoadActive(file);
      this.file := file;
      effects := [];
    }

    /** `saveConfig`: writes the set as a list holding each element once, in some order. */
    method SaveConfig() returns (list: seq<string>)
      modifies this`file, this`effects
      ensures NoDuplicates(list) && Elements(list) == activeExtensions
      ensures file == Some(Config(Some(list)))
      ensures effects == old(effects) + [Wrote(Config(Some(list)))]
    {
      list := Enumerate(activeExtensions);
      file := Some(Config(Some(list)));
      effects := effects + [Wrote(Config(Some(list)))];
    }

    /**
     * `applyProfile`: runs the entries through the set, persists the set, and
     * only then commands the host for every installed extension.
     */
    method ApplyProfile(entries: seq<ExtensionInfo>, installed: Catalog)
      modifies this
      ensures activeExtensions == ApplyEntries(old(activeExtensions), entries)
      ensures file.Some? && file.value.activeExtensions.Some?
      ensures NoDuplicates(file.value.activeExtensions.value)
      ensures Elements(file.value.activeExtensions.value) == activeExtensions
      ensures effects == old(effects) + [Wrote(file.value)] + StateCommands(activeExtensions, installed)
    {
      for i := 0 to |entries|
        invariant activeExtensions == ApplyEntries(old(activeExtensions), entries[..i])
        invariant effects == old(effects)
      {
        if entries[i].isEnabled {
          activeExtensions := activeExtensions + {entries[i].id};
        } else {
          activeExtensions := activeExtensions - {entries[i].id};
        }
        assert entries[..i + 1][..i] == entries[..i];
      }
      assert entries[..|entries|] == entries;
      var _ := SaveConfig();
      UpdateExtensionStates(installed);
    }

    /** `updateExtensionStates`: enable what is in the set, disable every other installed extension. */
    method UpdateExtensionStates(installed: Catalog)
      modifies this`effects
      ensures effects == old(effects) + StateCommands(activeExtensions, installed)
    {
      for i := 0 to |installed|
        invariant effects == old(effects) + StateCommands(activeExtensions, installed[..i])
      {
        var id := installed[i].id;
        if id in activeExtensions {
          effects := effects + [EnableExtension(id)];
        } else {
          effects := effects + [DisableExtension(id)];
        }
        assert installed[..i + 1][..i] == installed[..i];
      }
      assert installed[..|installed|] == installed;
    }

    /** `isExtensionEnabled`: membership, so an identifier never recorded is disabled. */
    function IsExtensionEnabled(id: string): (r: bool)
      reads this
      ensures r <==> id in activeExtensions
    {
      id in activeExtensions
    }
  }

  /** Writing the set and loading the file back gives the same set. */
  lemma SavedConfigReloads(list: seq<string>, active: set<string>)
    requires Elements(list) == active
    ensures LoadActive(Some(Config(Some(list)))) == active
  {
  }
}
