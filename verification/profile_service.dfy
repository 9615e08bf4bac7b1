/**
 * The profile store: a custom and a recommended profile, persisted together as
 * one document. Every change to the custom list is written through; the
 * recommended list is generated once from the project type and afterwards only
 * its members' enabled flags change.
 */
module ProfileService {

  import opened Options
  import opened Text
  import opened ProjectTypes
  import opened Extensions
  import EnvironmentService

  /** The two profiles a caller can name (`'custom' | 'recommended'`). */
  datatype ProfileKind = Custom | Recommended

  /** The persisted document `{customProfile, recommendedProfile}`; either key may be missing. */
  datatype ProfileDocument = ProfileDocument(customProfile: Option<Profile>, recommendedProfile: Option<Profile>)

  /** The pair of profiles the store holds. */
  datatype Profiles = Profiles(custom: Profile, recommended: Profile)

  const DefaultCustom := Profile("Custom", [])
  const DefaultRecommended := Profile("Recommended", [])

  /** `loadProfiles` after the constructor's defaults: each missing part falls back to an empty profile. */
  function LoadProfiles(file: Option<ProfileDocument>): (r: Profiles)
    ensures file.None? ==> r == Profiles(DefaultCustom, DefaultRecommended)
    ensures file.Some? && file.value.customProfile.None? ==> r.custom == DefaultCustom
    ensures file.Some? && file.value.recommendedProfile.None? ==> r.recommended == DefaultRecommended
    ensures file.Some? && file.value.customProfile.Some? ==> r.custom == file.value.customProfile.value
    ensures file.Some? && file.value.recommendedProfile.Some? ==> r.recommended == file.value.recommendedProfile.value
  {
    match file
    case None => Profiles(DefaultCustom, DefaultRecommended)
    case Some(doc) => Profiles(doc.customProfile.GetOr(DefaultCustom), doc.recommendedProfile.GetOr(DefaultRecommended))
  }

  /** `saveProfiles`: both profiles are written. */
  function SaveDocument(p: Profiles): ProfileDocument {
    ProfileDocument(Some(p.custom), Some(p.recommended))
  }

  /** Saving and loading back gives the same two profiles. */
  lemma SaveLoadRoundTrip(p: Profiles)
    ensures LoadProfiles(Some(SaveDocument(p))) == p
  {
  }

  /** The entry created for an installed extension: enabled, compatible, named by its label. */
  function Entry(e: Extension): (r: ExtensionInfo)
    ensures r.id == e.id && r.name == Label(e) && r.isEnabled && r.isCompatible
  {
    ExtensionInfo(e.id, Label(e), true, true)
  }

  /** `findIndex(ext => ext.id === id)`: the first position with that identifier, or -1. */
  function FindIndex(exts: seq<ExtensionInfo>, id: string): (r: int)
    ensures -1 <= r < |exts|
    ensures r == -1 ==> forall j :: 0 <= j < |exts| ==> exts[j].id != id
    ensures r >= 0 ==> exts[r].id == id && forall j :: 0 <= j < r ==> exts[j].id != id
  {
    if exts == [] then -1
    else if exts[0].id == id then 0
    else
      var k := FindIndex(exts[1..], id);
      if k == -1 then -1 else k + 1
  }

  /** What a removal of `id` keeps of one entry. */
  function Kept(x: ExtensionInfo, id: string): seq<ExtensionInfo> {
    if x.id == id then [] else [x]
  }

  /** The list without any entry for `id`, order kept: the reference for a removal. */
  function Without(exts: seq<ExtensionInfo>, id: string): seq<ExtensionInfo> {
    if exts == [] then []
    else Kept(exts[0], id) + Without(exts[1..], id)
  }

  /**
   * `toggleCustomExtension`'s update: remove the first entry for `id` if there is
   * one; otherwise append a fresh entry if the extension is installed, and
   * leave the list alone if it is not.
   */
  function ToggleCustom(exts: seq<ExtensionInfo>, id: string, installed: Catalog): seq<ExtensionInfo> {
    var k := FindIndex(exts, id);
    if k >= 0 then exts[..k] + exts[k + 1..]
    else match GetExtension(installed, id)
      case Some(e) => exts + [Entry(e)]
      case None => exts
  }

  /**
   * `toggleRecommendedExtension`'s update: the first entry for `id`, and only
   * that entry, has its enabled flag negated; every identifier, name and
   * compatibility flag stays.
   */
  function ToggleRecommended(exts: seq<ExtensionInfo>, id: string): (r: seq<ExtensionInfo>)
    ensures |r| == |exts|
    ensures forall i :: 0 <= i < |exts| ==>
      r[i].id == exts[i].id && r[i].name == exts[i].name && r[i].isCompatible == exts[i].isCompatible
    ensures forall i :: 0 <= i < |exts| ==> (r[i].isEnabled != exts[i].isEnabled <==> i == FindIndex(exts, id))
  {
    var k := FindIndex(exts, id);
    if k < 0 then exts else exts[k := exts[k].(isEnabled := !exts[k].isEnabled)]
  }

  /**
   * `addCustomExtension`'s update: an installed extension that is not yet in
   * the list is appended; otherwise nothing changes.
   */
  function AddCustom(exts: seq<ExtensionInfo>, id: string, installed: Catalog): (r: seq<ExtensionInfo>)
    ensures |exts| <= |r| <= |exts| + 1 && r[..|exts|] == exts
    ensures HasId(r, id) <==> HasId(exts, id) || GetExtension(installed, id).Some?
    ensures forall other :: other != id ==> (HasId(r, other) <==> HasId(exts, other))
    ensures |r| > |exts| <==> !HasId(exts, id) && GetExtension(installed, id).Some?
    ensures |r| > |exts| ==> GetExtension(installed, id).Some? && r[|exts|] == Entry(GetExtension(installed, id).value)
  {
    if HasId(exts, id) then exts
    else match GetExtension(installed, id)
      case Some(e) =>
        assert (exts + [Entry(e)])[|exts|].id == id;
        exts + [Entry(e)]
      case None => exts
  }

  /** The two extension identifiers recommended for every known type but the first seven. */
  const JsTooling: seq<string> := ["dbaeumer.vscode-eslint", "esbenp.prettier-vscode"]

  /** `getRecommendedExtensionIds`: a string that is no known type gets none. */
  function RecommendedIds(t: TypeName): (r: seq<string>)
    ensures r == [] <==> t.Other?
    ensures NoDuplicates(r)
  {
    match t
    case Other => []
    case Known(Node) => JsTooling
    case Known(Python) => ["ms-python.python", "ms-python.vscode-pylance"]
    case Known(Java) => ["vscjava.vscode-java-pack"]
    case Known(DotNet) => ["ms-dotnettools.csharp"]
    case Known(Ruby) => ["rebornix.ruby", "wingrunr21.vscode-ruby"]
    case Known(Go) => ["golang.go", "ms-vscode.Go"]
    case Known(Rust) => ["rust-lang.rust-analyzer", "serayuzgur.crates"]
    case Known(_) => JsTooling
  }

  /** The entry one installed extension contributes to a selection: none unless its identifier is in `ids`. */
  function Chosen(ids: seq<string>, e: Extension): (r: seq<ExtensionInfo>)
    ensures |r| <= 1
  {
    if e.id in ids then [Entry(e)] else []
  }

  /** The installed extensions whose identifier is in `ids`, as fresh entries, in host order. */
  function Select(ids: seq<string>, all: Catalog): (r: seq<ExtensionInfo>)
    ensures |r| <= |all|
  {
    if all == [] then []
    else Chosen(ids, all[0]) + Select(ids, all[1..])
  }

  /**
   * A selection holds exactly the entries of the installed extensions whose
   * identifier is in `ids`, and nothing when `ids` is empty.
   */
  lemma {:induction false} SelectMembers(ids: seq<string>, all: Catalog)
    ensures ids == [] ==> Select(ids, all) == []
    ensures forall x :: x in Select(ids, all) ==> x.isEnabled && x.isCompatible && x.id in ids
    ensures forall e :: e in all && e.id in ids ==> Entry(e) in Select(ids, all)
  {
    if all != [] {
      SelectMembers(ids, all[1..]);
      assert all == [all[0]] + all[1..];
    }
  }

  /** Selection distributes over concatenation, so host order is kept. */
  lemma {:induction false} SelectAppend(ids: seq<string>, a: Catalog, b: Catalog)
    ensures Select(ids, a + b) == Select(ids, a) + Select(ids, b)
  {
    if a == [] {
      assert a + b == b;
    } else {
      calc {
        Select(ids, a + b);
        { assert (a + b)[0] == a[0]; assert (a + b)[1..] == a[1..] + b; }
        Chosen(ids, a[0]) + Select(ids, a[1..] + b);
        { SelectAppend(ids, a[1..], b); }
        Chosen(ids, a[0]) + Select(ids, a[1..]) + Select(ids, b);
        Select(ids, a) + Select(ids, b);
      }
    }
  }

  /** Every selected entry comes from an installed extension. */
  lemma {:induction false} SelectedAreInstalled(ids: seq<string>, all: Catalog, x: ExtensionInfo)
    requires x in Select(ids, all)
    ensures exists e :: e in all && e.id in ids && x == Entry(e)
  {
    if all[0].id in ids && x == Entry(all[0]) {
      assert all[0] in all;
    } else {
      SelectedAreInstalled(ids, all[1..], x);
      var e :| e in all[1..] && e.id in ids && x == Entry(e);
      assert e in all;
    }
  }

  /** `generateRecommendedExtensions`: the installed extensions recommended for the type. */
  function Generate(t: TypeName, all: Catalog): (r: seq<ExtensionInfo>)
    ensures t.Other? ==> r == []
    ensures forall x :: x in r ==> x.isEnabled && x.isCompatible && x.id in RecommendedIds(t)
    ensures forall e :: e in all && e.id in RecommendedIds(t) ==> Entry(e) in r
  {
    SelectMembers(RecommendedIds(t), all);
    Select(RecommendedIds(t), all)
  }

  /** `getRecommendedProfile`'s update: the list is generated only while it is empty and a catalog is given. */
  function NextRecommended(current: seq<ExtensionInfo>, t: TypeName, all: Option<Catalog>): (r: seq<ExtensionInfo>)
    ensures current != [] || all.None? ==> r == current
  {
    if |current| == 0 && all.Some? then Generate(t, all.value) else current
  }

  /** Once the recommended list is non-empty, later requests never regenerate it. */
  lemma GeneratedOnce(current: seq<ExtensionInfo>, t: TypeName, all: Option<Catalog>, t': TypeName, all': Option<Catalog>)
    requires NextRecommended(current, t, all) != []
    ensures NextRecommended(NextRecommended(current, t, all), t', all') == NextRecommended(current, t, all)
  {
  }

  /** Removing the first entry for `id` from a list with unique identifiers removes every entry for it. */
  lemma RemoveFirstIsWithout(exts: seq<ExtensionInfo>, id: string)
    requires UniqueIds(exts) && HasId(exts, id)
    ensures exts[..FindIndex(exts, id)] + exts[FindIndex(exts, id) + 1..] == Without(exts, id)
  {
    var k := FindIndex(exts, id);
    assert !HasId(exts[..k], id) by {
      forall i | 0 <= i < k ensures exts[..k][i].id != id {
        assert exts[..k][i] == exts[i];
      }
    }
    var after := exts[k + 1..];
    assert !HasId(after, id) by {
      forall i | 0 <= i < |after| ensures after[i].id != id {
        assert after[i] == exts[k + 1 + i];
      }
    }
    RemoveAt(exts, k, id);
  }

  /** Removing the only entry for `id` at position `k` is a removal of `id`. */
  lemma RemoveAt(exts: seq<ExtensionInfo>, k: nat, id: string)
    requires k < |exts| && exts[k].id == id
    requires !HasId(exts[..k], id) && !HasId(exts[k + 1..], id)
    ensures exts[..k] + exts[k + 1..] == Without(exts, id)
  {
    assert exts == exts[..k] + [exts[k]] + exts[k + 1..];
    RemoveMiddle(exts[..k], exts[k], exts[k + 1..], id);
  }

  /** Removing `id` from a list where only one entry, between two others, carries it. */
  lemma RemoveMiddle(before: seq<ExtensionInfo>, x: ExtensionInfo, after: seq<ExtensionInfo>, id: string)
    requires x.id == id && !HasId(before, id) && !HasId(after, id)
    ensures Without(before + [x] + after, id) == before + after
  {
    calc {
      Without(before + [x] + after, id);
      { WithoutAppend(before + [x], after, id); }
      Without(before + [x], id) + Without(after, id);
      { WithoutAppend(before, [x], id); }
      Without(before, id) + Without([x], id) + Without(after, id);
      { WithoutAbsent(before, id); WithoutAbsent(after, id); assert Without([x], id) == []; }
      before + after;
    }
  }

  /** Exactly the entries with another identifier survive a removal. */
  lemma {:induction false} WithoutMembers(exts: seq<ExtensionInfo>, id: string)
    ensures forall x :: x in Without(exts, id) <==> x in exts && x.id != id
  {
    if exts != [] {
      WithoutMembers(exts[1..], id);
      assert exts == [exts[0]] + exts[1..];
    }
  }

  /** Removing an identifier that is not present changes nothing. */
  lemma {:induction false} WithoutAbsent(exts: seq<ExtensionInfo>, id: string)
    requires !HasId(exts, id)
    ensures Without(exts, id) == exts
  {
    if exts != [] {
      assert exts[0].id != id;
      assert !HasId(exts[1..], id) by {
        forall i | 0 <= i < |exts[1..]| ensures exts[1..][i].id != id {
          assert exts[1..][i] == exts[i + 1];
        }
      }
      WithoutAbsent(exts[1..], id);
      assert [exts[0]] + exts[1..] == exts;
    }
  }

  /** Removal distributes over concatenation. */
  lemma {:induction false} WithoutAppend(a: seq<ExtensionInfo>, b: seq<ExtensionInfo>, id: string)
    ensures Without(a + b, id) == Without(a, id) + Without(b, id)
  {
    if a == [] {
      assert a + b == b;
    } else {
      calc {
        Without(a + b, id);
        { assert (a + b)[0] == a[0]; assert (a + b)[1..] == a[1..] + b; }
        Kept(a[0], id) + Without(a[1..] + b, id);
        { WithoutAppend(a[1..], b, id); }
        Kept(a[0], id) + Without(a[1..], id) + Without(b, id);
        Without(a, id) + Without(b, id);
      }
    }
  }

  /** Toggling a present identifier removes its entry and nothing else, keeping identifiers unique. */
  lemma ToggleCustomPresent(exts: seq<ExtensionInfo>, id: string, installed: Catalog)
    requires UniqueIds(exts) && HasId(exts, id)
    ensures var r := ToggleCustom(exts, id, installed);
      && r == Without(exts, id)
      && UniqueIds(r)
      && (forall other :: other != id ==> (HasId(r, other) <==> HasId(exts, other)))
  {
    RemoveFirstIsWithout(exts, id);
    RemovalKeepsOthers(exts, FindIndex(exts, id));
  }

  /** Dropping one position of a list with unique identifiers keeps them unique and keeps every other identifier. */
  lemma RemovalKeepsOthers(exts: seq<ExtensionInfo>, k: nat)
    requires UniqueIds(exts) && k < |exts|
    ensures UniqueIds(exts[..k] + exts[k + 1..])
    ensures forall other :: other != exts[k].id ==> (HasId(exts[..k] + exts[k + 1..], other) <==> HasId(exts, other))
  {
    var r := exts[..k] + exts[k + 1..];
    forall i | 0 <= i < |r| ensures r[i] == exts[if i < k then i else i + 1] {
    }
    forall other | other != exts[k].id && HasId(exts, other) ensures HasId(r, other) {
      var i :| 0 <= i < |exts| && exts[i].id == other;
      assert r[if i < k then i else i - 1] == exts[i];
    }
  }

  /** Toggling an absent identifier appends an entry for it if it is installed, and touches nothing else. */
  lemma ToggleCustomAbsent(exts: seq<ExtensionInfo>, id: string, installed: Catalog)
    requires UniqueIds(exts) && !HasId(exts, id)
    ensures var r := ToggleCustom(exts, id, installed);
      && UniqueIds(r)
      && (HasId(r, id) <==> GetExtension(installed, id).Some?)
      && (forall other :: other != id ==> (HasId(r, other) <==> HasId(exts, other)))
      && (GetExtension(installed, id).Some? ==> r == exts + [Entry(GetExtension(installed, id).value)])
      && (GetExtension(installed, id).None? ==> r == exts)
  {
    if GetExtension(installed, id).Some? {
      var r := ToggleCustom(exts, id, installed);
      assert r[|exts|].id == id;
      forall other | other != id && HasId(r, other) ensures HasId(exts, other) {
        var i :| 0 <= i < |r| && r[i].id == other;
        assert i < |exts| && exts[i] == r[i];
      }
      forall other | HasId(exts, other) ensures HasId(r, other) {
        var i :| 0 <= i < |exts| && exts[i].id == other;
        assert r[i] == exts[i];
      }
    }
  }

  /**
   * On a list with unique identifiers, toggling makes `id` present exactly when
   * it was absent and the extension is installed, touches no other identifier,
   * keeps the identifiers unique, and a removal keeps the order of the rest.
   */
  lemma ToggleCustomFlips(exts: seq<ExtensionInfo>, id: string, installed: Catalog)
    requires UniqueIds(exts)
    ensures var r := ToggleCustom(exts, id, installed);
      && UniqueIds(r)
      && (HasId(r, id) <==> !HasId(exts, id) && GetExtension(installed, id).Some?)
      && (forall other :: other != id ==> (HasId(r, other) <==> HasId(exts, other)))
      && (HasId(exts, id) ==> r == Without(exts, id))
  {
    if HasId(exts, id) {
      ToggleCustomPresent(exts, id, installed);
    } else {
      ToggleCustomAbsent(exts, id, installed);
    }
  }

  /**
   * Toggling twice: an installed extension that was absent is added and
   * removed again; one that was present comes back at the end of the list as a
   * fresh enabled entry; one that is not installed stays removed.
   */
  lemma ToggleCustomTwice(exts: seq<ExtensionInfo>, id: string, installed: Catalog)
    requires UniqueIds(exts)
    ensures !HasId(exts, id) ==> ToggleCustom(ToggleCustom(exts, id, installed), id, installed) == exts
    ensures HasId(exts, id) ==>
      ToggleCustom(ToggleCustom(exts, id, installed), id, installed) ==
        (match GetExtension(installed, id)
         case Some(e) => Without(exts, id) + [Entry(e)]
         case None => Without(exts, id))
  {
    ToggleCustomFlips(exts, id, installed);
    var once := ToggleCustom(exts, id, installed);
    if !HasId(exts, id) && GetExtension(installed, id).Some? {
      assert FindIndex(once, id) == |exts|;
      assert once[..|exts|] == exts;
    }
  }

  /** Toggling a recommended entry twice restores the list. */
  lemma ToggleRecommendedTwice(exts: seq<ExtensionInfo>, id: string)
    ensures ToggleRecommended(ToggleRecommended(exts, id), id) == exts
  {
    var once := ToggleRecommended(exts, id);
    SameIdsSameIndex(exts, once, id);
  }

  /** `FindIndex` looks only at identifiers. */
  lemma {:induction false} SameIdsSameIndex(a: seq<ExtensionInfo>, b: seq<ExtensionInfo>, id: string)
    requires |a| == |b| && forall i :: 0 <= i < |a| ==> a[i].id == b[i].id
    ensures FindIndex(a, id) == FindIndex(b, id)
  {
    if a != [] {
      SameIdsSameIndex(a[1..], b[1..], id);
    }
  }

  /** Adding is idempotent and keeps identifiers unique. */
  lemma AddCustomIdempotent(exts: seq<ExtensionInfo>, id: string, installed: Catalog)
    requires UniqueIds(exts)
    ensures AddCustom(AddCustom(exts, id, installed), id, installed) == AddCustom(exts, id, installed)
    ensures UniqueIds(AddCustom(exts, id, installed))
  {
  }

  class ProfileManager {
    var customProfile: Profile
    var recommendedProfile: Profile
    /** The persisted document; None while no file exists. */
    var file: Option<ProfileDocument>
    const environment: EnvironmentService.VirtualEnvironment

    /** Construction loads both profiles, then creates the enablement store. */
    constructor (file: Option<ProfileDocument>, environmentFile: Option<EnvironmentService.Config>)
      ensures Profiles(customProfile, recommendedProfile) == LoadProfiles(file)
      ensures this.file == file
      ensures fresh(environment)
      ensures environment.activeExtensions == EnvironmentService.LoadActive(environmentFile)
      ensures environment.file == environmentFile && environment.effects == []
    {
      var loaded := LoadProfiles(file);
      customProfile := loaded.custom;
      recommendedProfile := loaded.recommended;
      this.file := file;
      environment := new EnvironmentService.VirtualEnvironment(environmentFile);
    }

    /** `saveProfiles`. */
    method SaveProfiles()
      modifies this`file
      ensures file == Some(SaveDocument(Profiles(customProfile, recommendedProfile)))
    {
      file := Some(SaveDocument(Profiles(customProfile, recommendedProfile)));
    }

    /** `getCustomProfile`: the stored custom profile. */
    function GetCustomProfile(): (p: Profile)
      reads this
      ensures p == customProfile
    {
      customProfile
    }

    /** `createProfile`: the named profile is emptied, keeping its name, and both are saved. */
    method CreateProfile(kind: ProfileKind)
      modifies this`customProfile, this`recommendedProfile, this`file
      ensures kind == Custom ==> customProfile == old(customProfile).(extensions := [])
                                 && recommendedProfile == old(recommendedProfile)
      ensures kind == Recommended ==> recommendedProfile == old(recommendedProfile).(extensions := [])
                                      && customProfile == old(customProfile)
      ensures file == Some(SaveDocument(Profiles(customProfile, recommendedProfile)))
    {
      if kind == Custom {
        customProfile := customProfile.(extensions := []);
      } else {
        recommendedProfile := recommendedProfile.(extensions := []);
      }
      SaveProfiles();
    }

    /** `getRecommendedProfile`: generates the list once, saving only when it does. */
    method GetRecommendedProfile(t: TypeName, all: Option<Catalog>) returns (p: Profile)
      modifies this`recommendedProfile, this`file
      ensures recommendedProfile == old(recommendedProfile).(extensions := NextRecommended(old(recommendedProfile.extensions), t, all))
      ensures p == recommendedProfile
      ensures old(recommendedProfile.extensions) == [] && all.Some? ==>
        file == Some(SaveDocument(Profiles(customProfile, recommendedProfile)))
      ensures old(recommendedProfile.extensions) != [] || all.None? ==> file == old(file)
    {
      if |recommendedProfile.extensions| == 0 && all.Some? {
        recommendedProfile := recommendedProfile.(extensions := Generate(t, all.value));
        SaveProfiles();
      }
      p := recommendedProfile;
    }

    /** `toggleCustomExtension`: always saves, even when nothing changed. */
    method ToggleCustomExtension(id: string, installed: Catalog)
      modifies this`customProfile, this`file
      ensures customProfile == old(customProfile).(extensions := ToggleCustom(old(customProfile.extensions), id, installed))
      ensures file == Some(SaveDocument(Profiles(customProfile, recommendedProfile)))
    {
      var k := FindIndex(customProfile.extensions, id);
      if k != -1 {
        customProfile := customProfile.(extensions := customProfile.extensions[..k] + customProfile.extensions[k + 1..]);
      } else {
        var extension := GetExtension(installed, id);
        if extension.Some? {
          customProfile := customProfile.(extensions := customProfile.extensions + [Entry(extension.value)]);
        }
      }
      SaveProfiles();
    }

    /** `toggleRecommendedExtension`: saves only when an entry was found. */
    method ToggleRecommendedExtension(id: string)
      modifies this`recommendedProfile, this`file
      ensures recommendedProfile == old(recommendedProfile).(extensions := ToggleRecommended(old(recommendedProfile.extensions), id))
      ensures HasId(old(recommendedProfile.extensions), id) ==>
        file == Some(SaveDocument(Profiles(customProfile, recommendedProfile)))
      ensures !HasId(old(recommendedProfile.extensions), id) ==> file == old(file)
    {
      var k := FindIndex(recommendedProfile.extensions, id);
      if k != -1 {
        var entry := recommendedProfile.extensions[k];
        recommendedProfile := recommendedProfile.(extensions := recommendedProfile.extensions[k := entry.(isEnabled := !entry.isEnabled)]);
        SaveProfiles();
      }
    }

    /** `addCustomExtension`: saves only when an entry was appended. */
    method AddCustomExtension(id: string, installed: Catalog)
      modifies this`customProfile, this`file
      ensures customProfile == old(customProfile).(extensions := AddCustom(old(customProfile.extensions), id, installed))
      ensures customProfile != old(customProfile) ==> file == Some(SaveDocument(Profiles(customProfile, recommendedProfile)))
      ensures customProfile == old(customProfile) ==> file == old(file)
    {
      if !HasId(customProfile.extensions, id) {
        var extension := GetExtension(installed, id);
        if extension.Some? {
          customProfile := customProfile.(extensions := customProfile.extensions + [Entry(extension.value)]);
          SaveProfiles();
        }
      }
    }

    /** `applyProfile`: hands the chosen profile's entries to the enablement store. */
    method ApplyProfile(kind: ProfileKind, installed: Catalog)
      modifies environment
      ensures var entries := if kind == Custom then customProfile.extensions else recommendedProfile.extensions;
        environment.activeExtensions == EnvironmentService.ApplyEntries(old(environment.activeExtensions), entries)
      ensures environment.file.Some? && environment.file.value.activeExtensions.Some?
      ensures Elements(environment.file.value.activeExtensions.value) == environment.activeExtensions
      ensures environment.effects ==
        old(environment.effects) + [EnvironmentService.Wrote(environment.file.value)]
        + EnvironmentService.StateCommands(environment.activeExtensions, installed)
    {
      var profile := if kind == Custom then customProfile else recommendedProfile;
      environment.ApplyProfile(profile.extensions, installed);
    }
  }
}
