/**
 * The parts of the compatibility check both panels share: the general-tool
 * test on an extension's lower-cased label, and substring tests on its
 * lower-cased identifier.
 */
module Compatibility {

  import opened Text
  import opened Extensions

  /**
   * `GENERAL_DEV_TOOLS.some(tool => name.includes(tool.toLowerCase()))`, where
   * `name` is the lower-cased label; the tool list is a parameter.
   */
  predicate IsGeneralTool(e: Extension, tools: seq<string>) {
    MentionsTool(ToLower(Label(e)), tools)
  }

  /** `tools.some(tool => name.includes(tool.toLowerCase()))`, tool by tool in list order. */
  predicate MentionsTool(name: string, tools: seq<string>) {
    tools != [] && (Contains(name, ToLower(tools[0])) || MentionsTool(name, tools[1..]))
  }

  /** `extension.id.toLowerCase().includes(sub)`. */
  predicate IdHas(e: Extension, sub: string) {
    Contains(ToLower(e.id), sub)
  }

  /** The test for the JavaScript family: `node`, `javascript` or `typescript` in the identifier. */
  predicate IsScriptTooling(e: Extension) {
    IdHas(e, "node") || IdHas(e, "javascript") || IdHas(e, "typescript")
  }

  /** An occurrence of a text is also an occurrence of each of its prefixes. */
  lemma PrefixOccurs(s: string, pat: string, n: nat)
    requires n <= |pat| && Contains(s, pat)
    ensures Contains(s, pat[..n])
  {
    var i: nat :| i <= |s| && OccursAt(s, pat, i);
    assert s[i..i + n] == s[i..i + |pat|][..n];
    assert OccursAt(s, pat[..n], i);
  }

  /** Every identifier containing `javascript` also contains `java`. */
  lemma JavaScriptHasJava(e: Extension)
    requires IdHas(e, "javascript")
    ensures IdHas(e, "java")
  {
    PrefixOccurs(ToLower(e.id), "javascript", 4);
    assert "javascript"[..4] == "java";
  }

  /**
   * The general-tool test ignores the case of the identifier: with no
   * display name the label is the identifier, and lower-casing is idempotent.
   */
  lemma GeneralToolIgnoresIdCase(e: Extension, tools: seq<string>)
    ensures IsGeneralTool(e, tools) <==> IsGeneralTool(e.(id := ToLower(e.id)), tools)
  {
    var e' := e.(id := ToLower(e.id));
    ToLowerIdempotent(e.id);
    assert ToLower(Label(e')) == ToLower(Label(e));
  }
}
