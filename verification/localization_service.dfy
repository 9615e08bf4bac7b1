/**
 * The localization table: a map from message key to text, loaded from a
 * per-language file, and `getString`, which looks a key up and fills the
 * positional placeholders `{0}`, `{1}`, ... one parameter at a time with the
 * host language's first-occurrence string replacement.
 */
module LocalizationService {

  import opened Options
  import opened Text

  /** The language files present in the localization directory, by language code. */
  type LanguageFiles = map<string, map<string, string>>

  /** `strings[key] || key`: a missing or empty text falls back to the key itself. */
  function Lookup(strings: map<string, string>, key: string): (r: string)
    ensures key in strings && strings[key] != "" ==> r == strings[key]
    ensures key !in strings || strings[key] == "" ==> r == key
  {
    if key in strings && strings[key] != "" then strings[key] else key
  }

  /** The placeholder for parameter `i`: `{` + the decimal digits of `i` + `}`. */
  function Placeholder(i: nat): (r: string)
    ensures |r| >= 3 && r[0] == '{' && r[|r| - 1] == '}'
  {
    "{" + NatToString(i) + "}"
  }

  /**
   * The replacement text of a string replacement: `$$` is one `$`, `$&` the
   * matched text, `` $` `` the text before the match and `$'` the text after it;
   * any other `$` is kept literally, since a string pattern has no capture groups.
   */
  function Expand(rep: string, before: string, matched: string, after: string): string
    decreases |rep|
  {
    if rep == [] then []
    else if rep[0] == '$' && |rep| >= 2 && rep[1] == '$' then "$" + Expand(rep[2..], before, matched, after)
    else if rep[0] == '$' && |rep| >= 2 && rep[1] == '&' then matched + Expand(rep[2..], before, matched, after)
    else if rep[0] == '$' && |rep| >= 2 && rep[1] == '`' then before + Expand(rep[2..], before, matched, after)
    else if rep[0] == '$' && |rep| >= 2 && rep[1] == '\'' then after + Expand(rep[2..], before, matched, after)
    else [rep[0]] + Expand(rep[1..], before, matched, after)
  }

  /** A replacement without `$` is inserted literally. */
  lemma {:induction false} ExpandLiteral(rep: string, before: string, matched: string, after: string)
    ensures '$' !in rep ==> Expand(rep, before, matched, after) == rep
  {
    if rep != [] && '$' !in rep {
      assert rep[0] != '$';
      assert '$' !in rep[1..];
      ExpandLiteral(rep[1..], before, matched, after);
      assert [rep[0]] + rep[1..] == rep;
    }
  }

  /** `s.replace(pat, rep)` with a string pattern: only the first occurrence is replaced. */
  function ReplaceFirst(s: string, pat: string, rep: string): (r: string)
    ensures !Contains(s, pat) ==> r == s
    ensures '$' !in rep ==> match FindFirst(s, pat)
      case None => r == s
      case Some(k) => r == s[..k] + rep + s[k + |pat|..]
  {
    match FindFirst(s, pat)
    case None => s
    case Some(k) =>
      var before, after := s[..k], s[k + |pat|..];
      ExpandLiteral(rep, before, pat, after);
      before + Expand(rep, before, pat, after) + after
  }

  /** The text after the first `n` parameters have been substituted, in index order. */
  function Substitute(template: string, params: seq<string>, n: nat): string
    requires n <= |params|
  {
    if n == 0 then template
    else ReplaceFirst(Substitute(template, params, n - 1), Placeholder(n - 1), params[n - 1])
  }

  /** A text that holds none of the placeholders comes back unchanged, whatever the parameters. */
  lemma {:induction false} NoPlaceholdersUnchanged(template: string, params: seq<string>, n: nat)
    requires n <= |params|
    requires forall i :: 0 <= i < n ==> !Contains(template, Placeholder(i))
    ensures Substitute(template, params, n) == template
  {
    if n > 0 {
      NoPlaceholdersUnchanged(template, params, n - 1);
    }
  }

  /** One parameter without `$` replaces the first `{0}` and nothing else. */
  lemma FirstPlaceholderOnly(template: string, param: string)
    requires '$' !in param
    ensures match FindFirst(template, "{0}")
      case None => Substitute(template, [param], 1) == template
      case Some(k) => Substitute(template, [param], 1) == template[..k] + param + template[k + 3..]
  {
    assert Placeholder(0) == "{0}";
  }

  /** The table loaded for a language: the file's contents, or the current table when there is no file. */
  function LoadedStrings(files: LanguageFiles, lang: string, current: map<string, string>): (r: map<string, string>)
    ensures lang in files ==> r == files[lang]
    ensures lang !in files ==> r == current
  {
    if lang in files then files[lang] else current
  }

  class LocalizationManager {
    var strings: map<string, string>

    /** Construction loads English; without an English file the table stays empty. */
    constructor (files: LanguageFiles)
      ensures strings == LoadedStrings(files, "en", map[])
    {
      strings := map[];
      new;
      LoadLanguage("en", files);
    }

    /** `loadLanguage`: replaces the table with the language's file, if there is one. */
    method LoadLanguage(lang: string, files: LanguageFiles)
      modifies this
      ensures strings == LoadedStrings(files, lang, old(strings))
    {
      if lang in files {
        strings := files[lang];
      }
    }

    /** `getString`: the looked-up text with each parameter substituted for its placeholder, in order. */
    method GetString(key: string, params: seq<string>) returns (value: string)
      ensures value == Substitute(Lookup(strings, key), params, |params|)
    {
      value := if key in strings && strings[key] != "" then strings[key] else key;
      for index := 0 to |params|
        invariant value == Substitute(Lookup(strings, key), params, index)
      {
        value := ReplaceFirst(value, Placeholder(index), params[index]);
      }
    }
  }

  /** The process-wide holder of the single manager (the class's static `instance`). */
  class Registry {
    var instance: LocalizationManager?

    constructor ()
      ensures instance == null
    {
      instance := null;
    }

    /** `getInstance`: creates the manager on first use and returns the same one afterwards. */
    method GetInstance(files: LanguageFiles) returns (manager: LocalizationManager)
      modifies this
      ensures instance == manager
      ensures old(instance) != null ==> manager == old(instance)
      ensures old(instance) == null ==> fresh(manager) && manager.strings == LoadedStrings(files, "en", map[])
    {
      if instance == null {
        instance := new LocalizationManager(files);
      }
      manager := instance;
    }
  }

  /** Without a text for the key, and without parameters, `getString` answers with the key. */
  lemma MissingKeyEchoes(strings: map<string, string>, key: string)
    requires key !in strings || strings[key] == ""
    ensures Substitute(Lookup(strings, key), [], 0) == key
  {
  }

  /** A parameter may itself hold a later placeholder, which the later parameter then fills. */
  lemma LaterParameterFillsEarlierOutput()
    ensures Substitute("{0}", ["{1}", "x"], 2) == "x"
  {
    assert Placeholder(0) == "{0}" && Placeholder(1) == "{1}";
    assert OccursAt("{0}", "{0}", 0);
    assert Substitute("{0}", ["{1}", "x"], 1) == "{1}";
    assert OccursAt("{1}", "{1}", 0);
  }

  /** Only the first occurrence of a placeholder is filled. */
  lemma RepeatedPlaceholderFilledOnce()
    ensures Substitute("{0}{0}", ["a"], 1) == "a{0}"
  {
    assert Placeholder(0) == "{0}";
    ReplaceFirstKeepsLaterOccurrence();
  }

  /** `replace` with a string pattern leaves the second occurrence in place. */
  lemma ReplaceFirstKeepsLaterOccurrence()
    ensures ReplaceFirst("{0}{0}", "{0}", "a") == "a{0}"
  {
    var s := "{0}{0}";
    assert s[0..3] == "{0}";
    assert FindFirstFrom(s, "{0}", 0) == Some(0);
  }

  /** `$&` in a parameter re-inserts the placeholder it replaces. */
  lemma DollarAmpersandKeepsPlaceholder()
    ensures Substitute("{0}", ["$&"], 1) == "{0}"
  {
    assert Placeholder(0) == "{0}";
    assert OccursAt("{0}", "{0}", 0);
  }
}
