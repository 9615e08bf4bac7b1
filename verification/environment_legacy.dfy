/**
 * The enablement store of the first-generation layer: a map from extension
 * identifier to a recorded flag, persisted whole. An identifier that was never
 * recorded counts as enabled. Instead of enabling or disabling extensions, the
 * store publishes a host context key `<id>:enabled` for installed extensions.
 */
module EnvironmentLegacy {

  import opened Options
  import opened Extensions
  import opened Text

  /** The persisted document `{extensionStates: {...}}`; the key may be missing. */
  datatype Config = Config(extensionStates: Option<map<string, bool>>)

  /** What the store does outside itself, in order. */
  datatype Effect =
    | Wrote(config: Config)
    | SetContext(key: string, value: bool)   // the host's `setContext` command

  /** `loadConfig`: a missing file or a missing key gives the empty map. */
  function LoadStates(file: Option<Config>): (r: map<string, bool>)
    ensures file.None? || file.value.extensionStates.None? ==> r == map[]
    ensures file.Some? && file.value.extensionStates.Some? ==> r == file.value.extensionStates.value
  {
    match file
    case None => map[]
    case Some(config) => config.extensionStates.GetOr(map[])
  }

  /** `isExtensionEnabled`: only an explicitly recorded `false` disables. */
  predicate Enabled(states: map<string, bool>, id: string) {
    id !in states || states[id]
  }

  /**
   * `toggleExtension`'s update: the recorded flag is negated; an unrecorded
   * identifier reads as undefined, whose negation is `true`.
   */
  function Toggled(states: map<string, bool>, id: string): (r: map<string, bool>)
    ensures r.Keys == states.Keys + {id}
    ensures forall other :: other in states && other != id ==> r[other] == states[other]
    ensures Enabled(r, id) <==> (id !in states || !states[id])
  {
    states[id := !(id in states && states[id])]
  }

  /** The context key published for an extension. */
  function ContextKey(id: string): string {
    id + ":enabled"
  }

  /** `applyExtensionState`: one context update if the extension is installed, otherwise nothing. */
  function StateEffect(states: map<string, bool>, id: string, installed: Catalog): seq<Effect> {
    if GetExtension(installed, id).Some? then [SetContext(ContextKey(id), Enabled(states, id))] else []
  }

  /** The effects of `applyExtensionState` over a list of identifiers, in that order. */
  function StateEffects(states: map<string, bool>, ids: seq<string>, installed: Catalog): seq<Effect> {
    if ids == [] then []
    else StateEffects(states, ids[..|ids| - 1], installed) + StateEffect(states, ids[|ids| - 1], installed)
  }

  class VirtualEnvironment {
    var extensionStates: map<string, bool>
    /** The persisted document; None while no file exists. */
    var file: Option<Config>
    var effects: seq<Effect>

    /** Construction loads the persisted map. */
    constructor (file: Option<Config>)
      ensures extensionStates == LoadStates(file)
      ensures this.file == file && effects == []
    {
      extensionStates := LoadStates(file);
      this.file := file;
      effects := [];
    }

    /** `saveConfig`: the whole map is written. */
    method SaveConfig()
      modifies this`file, this`effects
      ensures file == Some(Config(Some(extensionStates)))
      ensures effects == old(effects) + [Wrote(Config(Some(extensionStates)))]
    {
      file := Some(Config(Some(extensionStates)));
      effects := effects + [Wrote(file.value)];
    }

    /** `toggleExtension`: negate the flag, persist, then publish the new state. */
    method ToggleExtension(id: string, installed: Catalog)
      modifies this
      ensures extensionStates == Toggled(old(extensionStates), id)
      ensures file == Some(Config(Some(extensionStates)))
      ensures effects == old(effects) + [Wrote(Config(Some(extensionStates)))]
                         + StateEffect(extensionStates, id, installed)
    {
      extensionStates := Toggled(extensionStates, id);
      SaveConfig();
      ApplyExtensionState(id, installed);
    }

    /** `isExtensionEnabled`. */
    function IsExtensionEnabled(id: string): (r: bool)
      reads this
      ensures !r <==> id in extensionStates && !extensionStates[id]
    {
      Enabled(extensionStates, id)
    }

    /** `applyExtensionState`: publishes the enabled flag of an installed extension. */
    method ApplyExtensionState(id: string, installed: Catalog)
      modifies this`effects
      ensures effects == old(effects) + StateEffect(extensionStates, id, installed)
    {
      var extension := GetExtension(installed, id);
      if extension.Some? {
        if IsExtensionEnabled(id) {
          effects := effects + [SetContext(ContextKey(id), true)];
        } else {
          effects := effects + [SetContext(ContextKey(id), false)];
        }
      }
    }

    /**
     * `applyAllExtensionStates`: visits every recorded identifier exactly once,
     * in an order the model leaves open, and returns that order.
     */
    method ApplyAllExtensionStates(installed: Catalog) returns (order: seq<string>)
      modifies this`effects
      ensures NoDuplicates(order) && Elements(order) == extensionStates.Keys
      ensures effects == old(effects) + StateEffects(extensionStates, order, installed)
    {
      var states := extensionStates;
      order := Enumerate(states.Keys);
      ghost var start := effects;
      for i := 0 to |order|
        invariant extensionStates == states
        invariant effects == start + StateEffects(states, order[..i], installed)
      {
        ApplyExtensionState(order[i], installed);
        assert order[..i + 1][..i] == order[..i];
      }
      assert order[..|order|] == order;
    }
  }

  /** Toggling a recorded identifier twice restores the map. */
  lemma ToggleTwiceRestores(states: map<string, bool>, id: string)
    requires id in states
    ensures Toggled(Toggled(states, id), id) == states
  {
  }

  /**
   * Toggling an unrecorded identifier records it enabled, so the first toggle
   * of an extension that was implicitly enabled leaves it enabled.
   */
  lemma FirstToggleKeepsEnabled(states: map<string, bool>, id: string)
    requires id !in states
    ensures Enabled(states, id) && Enabled(Toggled(states, id), id)
    ensures Toggled(states, id)[id]
  {
  }

  /** Toggling a recorded identifier flips whether it is enabled, and no other identifier's. */
  lemma ToggleFlipsRecorded(states: map<string, bool>, id: string, other: string)
    requires id in states && other != id
    ensures Enabled(Toggled(states, id), id) <==> !Enabled(states, id)
    ensures Enabled(Toggled(states, id), other) <==> Enabled(states, other)
  {
  }

  /** Writing the map and loading the file back gives the same map. */
  lemma SavedConfigReloads(states: map<string, bool>)
    ensures LoadStates(Some(Config(Some(states)))) == states
  {
  }
}
