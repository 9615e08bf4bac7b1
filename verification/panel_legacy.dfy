/**
 * The first-generation panel: a wider compatibility classifier, the split of
 * the installed extensions into project-specific rows and general-tool rows,
 * and its one message, which toggles an extension in the map-based
 * enablement store.
 */
module PanelLegacy {

  import opened Options
  import opened Text
  import opened ProjectTypes
  import opened Extensions
  import opened Compatibility
  import PanelUi
  import EnvironmentLegacy

  /** The type switch of `_isExtensionCompatible`, applied when the extension is no general tool. */
  predicate TypeRule(t: TypeName, e: Extension) {
    match t
    case Known(Node) | Known(React) | Known(Angular) | Known(Vue)
       | Known(Svelte) | Known(NextJS) | Known(NuxtJS) | Known(Express) => IsScriptTooling(e)
    case Known(Python) | Known(Django) | Known(Flask) => IdHas(e, "python")
    case Known(Java) | Known(Spring) | Known(Hibernate) => IdHas(e, "java")
    case Known(DotNet) => IdHas(e, "csharp") || IdHas(e, "dotnet")
    case Known(Ruby) => IdHas(e, "ruby")
    case Known(Go) => IdHas(e, "go")
    case Known(Rust) => IdHas(e, "rust")
    case Known(Laravel) | Known(Symfony) => IdHas(e, "php")
    case Known(Flutter) => IdHas(e, "flutter") || IdHas(e, "dart")
    case _ => false
  }

  /** `_isExtensionCompatible`: a general tool is compatible with every type; otherwise the type's rule decides. */
  function IsExtensionCompatible(e: Extension, t: TypeName, tools: seq<string>): (r: bool)
    ensures IsGeneralTool(e, tools) ==> r
    ensures t == Known(Unknown) || t.Other? ==> (r <==> IsGeneralTool(e, tools))
  {
    IsGeneralTool(e, tools) || TypeRule(t, e)
  }

  /** On every type the newer classifier has a rule for, the two classifiers agree. */
  lemma AgreesWithUiOnSharedTypes(e: Extension, t: TypeName, tools: seq<string>)
    requires PanelUi.HasRule(t)
    ensures IsExtensionCompatible(e, t, tools) == PanelUi.IsExtensionCompatible(e, t, tools)
  {
  }

  /** Whatever the newer classifier accepts, this one accepts too. */
  lemma WiderThanUi(e: Extension, t: TypeName, tools: seq<string>)
    ensures PanelUi.IsExtensionCompatible(e, t, tools) ==> IsExtensionCompatible(e, t, tools)
  {
    if PanelUi.HasRule(t) {
      AgreesWithUiOnSharedTypes(e, t, tools);
    }
  }

  /** The type whose rule a framework type shares in this classifier; every other type maps to itself. */
  function LanguageOf(t: ProjectType): ProjectType {
    match t
    case React | Angular | Vue | Svelte | NextJS | NuxtJS | Express => Node
    case Django | Flask => Python
    case Spring | Hibernate => Java
    case Symfony => Laravel
    case _ => t
  }

  /** Framework types are classified exactly like the language they build on. */
  lemma FrameworksFollowTheirLanguage(e: Extension, t: ProjectType, tools: seq<string>)
    ensures IsExtensionCompatible(e, Known(t), tools) == IsExtensionCompatible(e, Known(LanguageOf(t)), tools)
  {
    match t
    case React | Angular | Vue | Svelte | NextJS | NuxtJS | Express =>
      assert TypeRule(Known(t), e) == TypeRule(Known(Node), e);
    case Django | Flask =>
      assert TypeRule(Known(t), e) == TypeRule(Known(Python), e);
    case Spring | Hibernate =>
      assert TypeRule(Known(t), e) == TypeRule(Known(Java), e);
    case Symfony =>
      assert TypeRule(Known(t), e) == TypeRule(Known(Laravel), e);
    case _ =>
  }

  /** One list item of the page: identifier, shown name, green label, and the toggle's state. */
  datatype Row = Row(id: string, name: string, green: bool, enabled: bool)

  /** The list item for one extension: the label is green when it is compatible or a general tool. */
  function MakeRow(e: Extension, t: TypeName, tools: seq<string>, states: map<string, bool>): Row {
    Row(e.id, Label(e), IsExtensionCompatible(e, t, tools) || IsGeneralTool(e, tools), EnvironmentLegacy.Enabled(states, e.id))
  }

  /** A row names its extension, is green exactly when the extension is compatible, and shows the recorded state. */
  lemma RowFields(e: Extension, t: TypeName, tools: seq<string>, states: map<string, bool>)
    ensures MakeRow(e, t, tools, states).id == e.id && MakeRow(e, t, tools, states).name == Label(e)
    ensures MakeRow(e, t, tools, states).green == IsExtensionCompatible(e, t, tools)
    ensures MakeRow(e, t, tools, states).enabled == EnvironmentLegacy.Enabled(states, e.id)
  {
  }

  /**
   * The rows `row` makes of the extensions that `side` puts on the `general`
   * side, in input order: one of the two lists a two-way split builds.
   */
  function Split(exts: Catalog, side: Extension -> bool, row: Extension -> Row, general: bool): seq<Row> {
    if exts == [] then []
    else
      var last := exts[|exts| - 1];
      Split(exts[..|exts| - 1], side, row, general) + (if side(last) == general then [row(last)] else [])
  }

  /** A two-way split puts every extension on exactly one side. */
  lemma {:induction false} SplitSizes(exts: Catalog, side: Extension -> bool, row: Extension -> Row)
    ensures |Split(exts, side, row, false)| + |Split(exts, side, row, true)| == |exts|
  {
    if exts != [] {
      SplitSizes(exts[..|exts| - 1], side, row);
    }
  }

  /**
   * A two-way split loses and duplicates nothing: when every row carries its
   * extension's identifier, each identifier occurs in the two lists together
   * exactly as often as in the input.
   */
  lemma {:induction false} SplitKeepsEveryId(exts: Catalog, side: Extension -> bool, row: Extension -> Row, id: string)
    requires forall e :: row(e).id == e.id
    ensures Occurrences(RowIds(Split(exts, side, row, false)), id) + Occurrences(RowIds(Split(exts, side, row, true)), id)
            == Occurrences(CatalogIds(exts), id)
  {
    if exts != [] {
      var init, last := exts[..|exts| - 1], exts[|exts| - 1];
      SplitKeepsEveryId(init, side, row, id);
      var g := side(last);
      var grown := Split(init, side, row, g);
      assert Split(exts, side, row, g) == grown + [row(last)];
      assert Split(exts, side, row, !g) == Split(init, side, row, !g);
      RowIdsSnoc(grown, row(last));
      OccurrencesSnoc(RowIds(grown), last.id, id);
    }
  }

  /** Appending a row appends its identifier. */
  lemma RowIdsSnoc(rows: seq<Row>, r: Row)
    ensures RowIds(rows + [r]) == RowIds(rows) + [r.id]
  {
    assert (rows + [r])[..|rows|] == rows;
  }

  /** How often `id` occurs in `ids`. */
  function Occurrences(ids: seq<string>, id: string): nat {
    if ids == [] then 0
    else Occurrences(ids[..|ids| - 1], id) + (if ids[|ids| - 1] == id then 1 else 0)
  }

  /** Appending an identifier adds one occurrence of it and none of any other. */
  lemma OccurrencesSnoc(ids: seq<string>, x: string, id: string)
    ensures Occurrences(ids + [x], id) == Occurrences(ids, id) + (if x == id then 1 else 0)
  {
    assert (ids + [x])[..|ids|] == ids;
  }

  /** The panel's side test: general tools go to the general list. */
  function GeneralSide(tools: seq<string>): Extension -> bool {
    e => IsGeneralTool(e, tools)
  }

  /** The panel's row for each extension. */
  function RowMaker(t: TypeName, tools: seq<string>, states: map<string, bool>): Extension -> Row {
    e => MakeRow(e, t, tools, states)
  }

  /** The panel's split: general tools on one side, the rest on the other. */
  function Rows(exts: Catalog, t: TypeName, tools: seq<string>, states: map<string, bool>, general: bool): seq<Row> {
    Split(exts, GeneralSide(tools), RowMaker(t, tools, states), general)
  }

  /**
   * Every extension lands on exactly one side: the two row lists together have
   * one row per extension, and each identifier occurs in them as often as in
   * the catalog.
   */
  lemma EachExtensionOnce(exts: Catalog, t: TypeName, tools: seq<string>, states: map<string, bool>, id: string)
    ensures |Rows(exts, t, tools, states, false)| + |Rows(exts, t, tools, states, true)| == |exts|
    ensures Occurrences(RowIds(Rows(exts, t, tools, states, false)), id)
            + Occurrences(RowIds(Rows(exts, t, tools, states, true)), id)
            == Occurrences(CatalogIds(exts), id)
  {
    SplitSizes(exts, GeneralSide(tools), RowMaker(t, tools, states));
    SplitKeepsEveryId(exts, GeneralSide(tools), RowMaker(t, tools, states), id);
  }

  /** The identifiers of a row list, in order. */
  function RowIds(rows: seq<Row>): (r: seq<string>)
    ensures |r| == |rows|
  {
    if rows == [] then [] else RowIds(rows[..|rows| - 1]) + [rows[|rows| - 1].id]
  }

  /** The identifiers of a catalog, in order. */
  function CatalogIds(exts: Catalog): (r: seq<string>)
    ensures |r| == |exts|
  {
    if exts == [] then [] else CatalogIds(exts[..|exts| - 1]) + [exts[|exts| - 1].id]
  }

  /**
   * The `forEach` of `_getWebviewContent`: each extension's row is pushed onto
   * the general-tool list or the project-specific list.
   */
  method Partition(exts: Catalog, t: TypeName, tools: seq<string>, env: EnvironmentLegacy.VirtualEnvironment)
    returns (projectSpecific: seq<Row>, generalDevTools: seq<Row>)
    ensures projectSpecific == Rows(exts, t, tools, env.extensionStates, false)
    ensures generalDevTools == Rows(exts, t, tools, env.extensionStates, true)
  {
    var states := env.extensionStates;
    projectSpecific, generalDevTools := [], [];
    for i := 0 to |exts|
      invariant projectSpecific == Rows(exts[..i], t, tools, states, false)
      invariant generalDevTools == Rows(exts[..i], t, tools, states, true)
    {
      var ext := exts[i];
      var isCompatible := IsExtensionCompatible(ext, t, tools);
      var isGeneralTool := IsGeneralTool(ext, tools);
      var row := Row(ext.id, Label(ext), isCompatible || isGeneralTool, env.IsExtensionEnabled(ext.id));
      assert RowMaker(t, tools, states)(ext) == row && GeneralSide(tools)(ext) == isGeneralTool;
      if isGeneralTool {
        generalDevTools := generalDevTools + [row];
      } else {
        projectSpecific := projectSpecific + [row];
      }
      assert exts[..i + 1][..i] == exts[..i];
    }
    assert exts[..|exts|] == exts;
  }

  class ProjectPanel {
    const environment: EnvironmentLegacy.VirtualEnvironment

    constructor (environment: EnvironmentLegacy.VirtualEnvironment)
      ensures this.environment == environment
    {
      this.environment := environment;
    }

    /** `_handleMessage`: `toggleExtension` toggles the identifier; any other command does nothing. */
    method HandleMessage(command: string, extensionId: string, installed: Catalog)
      modifies environment
      ensures command == "toggleExtension" ==>
        environment.extensionStates == EnvironmentLegacy.Toggled(old(environment.extensionStates), extensionId)
        && environment.file == Some(EnvironmentLegacy.Config(Some(environment.extensionStates)))
        && environment.effects == old(environment.effects)
           + [EnvironmentLegacy.Wrote(EnvironmentLegacy.Config(Some(environment.extensionStates)))]
           + EnvironmentLegacy.StateEffect(environment.extensionStates, extensionId, installed)
      ensures command != "toggleExtension" ==> unchanged(environment)
    {
      if command == "toggleExtension" {
        environment.ToggleExtension(extensionId, installed);
      }
    }
  }
}
