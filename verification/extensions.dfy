/**
 * The records shared by the profile store, the enablement stores and the panels:
 * the host's installed-extension descriptors and the profile entries.
 */
module Extensions {

  import opened Options

  /**
   * An installed extension as the host reports it: its identifier and the
   * `displayName` of its package manifest, which may be missing.
   */
  datatype Extension = Extension(id: string, displayName: Option<string>)

  /** The installed-extension catalog (`vscode.extensions.all`), in host order. */
  type Catalog = seq<Extension>

  /**
   * `displayName || id`: the display name when it is present and non-empty
   * (an empty string is falsy), otherwise the identifier.
   */
  function Label(e: Extension): (r: string)
    ensures e.displayName.Some? && e.displayName.value != "" ==> r == e.displayName.value
    ensures e.displayName.None? || e.displayName.value == "" ==> r == e.id
  {
    if e.displayName.Some? && e.displayName.value != "" then e.displayName.value else e.id
  }

  /** `vscode.extensions.getExtension(id)`: the first installed extension with that identifier. */
  function GetExtension(catalog: Catalog, id: string): (r: Option<Extension>)
    ensures r.Some? ==> r.value in catalog && r.value.id == id
    ensures r.None? <==> forall e :: e in catalog ==> e.id != id
  {
    if catalog == [] then None
    else if catalog[0].id == id then Some(catalog[0])
    else GetExtension(catalog[1..], id)
  }

  /** A profile member `{id, name, isEnabled, isCompatible}`. */
  datatype ExtensionInfo = ExtensionInfo(id: string, name: string, isEnabled: bool, isCompatible: bool)

  /** A named, ordered list of profile members. */
  datatype Profile = Profile(name: string, extensions: seq<ExtensionInfo>)

  /** No identifier occurs twice in the list. */
  predicate UniqueIds(exts: seq<ExtensionInfo>) {
    forall i, j :: 0 <= i < j < |exts| ==> exts[i].id != exts[j].id
  }

  /** Some entry of the list has identifier `id` (`exts.some(ext => ext.id === id)`). */
  predicate HasId(exts: seq<ExtensionInfo>, id: string) {
    exists i :: 0 <= i < |exts| && exts[i].id == id
  }
}
