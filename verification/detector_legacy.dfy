/** The older detector: the same predicates as an if/else-if chain. */
module DetectorLegacy {

  import opened ProjectTypes
  import opened Markers
  import DetectorService

  /** `detectProjectType` of the older copy. */
  function DetectChain(w: Workspace): (r: ProjectType)
    ensures r == DetectorService.EffectiveType(w)
  {
    if IsNodeProject(w) then Node
    else if IsPythonProject(w) then Python
    else if IsJavaProject(w) then Java
    else if IsDotNetProject(w) then DotNet
    else if IsRubyProject(w) then Ruby
    else if IsGoProject(w) then Go
    else if IsRustProject(w) then Rust
    else if IsReactProject(w) then React
    else if IsAngularProject(w) then Angular
    else if IsVueProject(w) then Vue
    else if IsSvelteProject(w) then Svelte
    else if IsNextProject(w) then NextJS
    else if IsNuxtProject(w) then NuxtJS
    else if IsLaravelProject(w) then Laravel
    else if IsSymfonyProject(w) then Symfony
    else if IsDjangoProject(w) then Django
    else if IsFlaskProject(w) then Flask
    else if IsExpressProject(w) then Express
    else if IsSpringProject(w) then Spring
    else if IsHibernateProject(w) then Hibernate
    else if IsFlutterProject(w) then Flutter
    else Unknown
  }

  /** The chain and the rule table agree on every workspace. */
  lemma ChainAgreesWithTable(w: Workspace)
    ensures DetectChain(w) == DetectorService.Detect(w)
  {
    if IsNodeProject(w) || IsPythonProject(w) || IsJavaProject(w) {
      Rules1To3Agree(w);
    } else if IsDotNetProject(w) || IsRubyProject(w) {
      Rules4To5Agree(w);
    } else if IsGoProject(w) || IsRustProject(w) {
      Rules6To7Agree(w);
    } else if IsReactProject(w) || IsAngularProject(w) || IsVueProject(w) || IsSvelteProject(w) {
      Rules8To11Agree(w);
    } else if IsNextProject(w) || IsNuxtProject(w) {
      Rules12To13Agree(w);
    } else if IsLaravelProject(w) {
      Rule14Agrees(w);
    } else {
      LastRulesAgree(w);
    }
  }

  /** The first three rules, where one of them holds. */
  lemma Rules1To3Agree(w: Workspace)
    requires IsNodeProject(w) || IsPythonProject(w) || IsJavaProject(w)
    ensures DetectChain(w) == DetectorService.Detect(w)
  {
    var rules := DetectorService.DetectionMethods();
    if IsNodeProject(w) { DetectorService.FirstHit(rules, w, 0); }
    else if IsPythonProject(w) { DetectorService.FirstHit(rules, w, 1); }
    else { DetectorService.FirstHit(rules, w, 2); }
  }

  /** Rules four and five, where none before them holds and one of them does. */
  lemma Rules4To5Agree(w: Workspace)
    requires !(IsNodeProject(w) || IsPythonProject(w) || IsJavaProject(w))
    requires IsDotNetProject(w) || IsRubyProject(w)
    ensures DetectChain(w) == DetectorService.Detect(w)
  {
    var rules := DetectorService.DetectionMethods();
    assert forall j :: 0 <= j < 3 ==> !rules[j].check(w);
    if IsDotNetProject(w) { DetectorService.FirstHit(rules, w, 3); }
    else { DetectorService.FirstHit(rules, w, 4); }
  }

  /** Rules six and seven, where none before them holds and one of them does. */
  lemma Rules6To7Agree(w: Workspace)
    requires !(IsNodeProject(w) || IsPythonProject(w) || IsJavaProject(w) || IsDotNetProject(w)
      || IsRubyProject(w))
    requires IsGoProject(w) || IsRustProject(w)
    ensures DetectChain(w) == DetectorService.Detect(w)
  {
    var rules := DetectorService.DetectionMethods();
    assert forall j :: 0 <= j < 5 ==> !rules[j].check(w);
    if IsGoProject(w) { DetectorService.FirstHit(rules, w, 5); }
    else { DetectorService.FirstHit(rules, w, 6); }
  }

  /** Rules eight to eleven, where none before them holds and one of them does. */
  lemma Rules8To11Agree(w: Workspace)
    requires !(IsNodeProject(w) || IsPythonProject(w) || IsJavaProject(w) || IsDotNetProject(w)
      || IsRubyProject(w) || IsGoProject(w) || IsRustProject(w))
    requires IsReactProject(w) || IsAngularProject(w) || IsVueProject(w) || IsSvelteProject(w)
    ensures DetectChain(w) == DetectorService.Detect(w)
  {
    var rules := DetectorService.DetectionMethods();
    assert forall j :: 0 <= j < 7 ==> !rules[j].check(w);
    if IsReactProject(w) { assert false; }  // needs package.json, so the Node rule held
    else if IsAngularProject(w) { DetectorService.FirstHit(rules, w, 8); }
    else if IsVueProject(w) { assert false; }  // needs package.json, so the Node rule held
    else { DetectorService.FirstHit(rules, w, 10); }
  }

  /** Rules twelve and thirteen, where none before them holds and one of them does. */
  lemma Rules12To13Agree(w: Workspace)
    requires !(IsNodeProject(w) || IsPythonProject(w) || IsJavaProject(w) || IsDotNetProject(w)
      || IsRubyProject(w) || IsGoProject(w) || IsRustProject(w) || IsReactProject(w)
      || IsAngularProject(w) || IsVueProject(w) || IsSvelteProject(w))
    requires IsNextProject(w) || IsNuxtProject(w)
    ensures DetectChain(w) == DetectorService.Detect(w)
  {
    var rules := DetectorService.DetectionMethods();
    assert forall j :: 0 <= j < 11 ==> !rules[j].check(w);
    if IsNextProject(w) { DetectorService.FirstHit(rules, w, 11); }
    else { DetectorService.FirstHit(rules, w, 12); }
  }

  /** Rule fourteen, where it is the first to hold. */
  lemma Rule14Agrees(w: Workspace)
    requires !(IsNodeProject(w) || IsPythonProject(w) || IsJavaProject(w) || IsDotNetProject(w)
      || IsRubyProject(w) || IsGoProject(w) || IsRustProject(w) || IsReactProject(w)
      || IsAngularProject(w) || IsVueProject(w) || IsSvelteProject(w) || IsNextProject(w)
      || IsNuxtProject(w))
    requires IsLaravelProject(w)
    ensures DetectChain(w) == DetectorService.Detect(w)
  {
    var rules := DetectorService.DetectionMethods();
    assert forall j :: 0 <= j < 13 ==> !rules[j].check(w);
    DetectorService.FirstHit(rules, w, 13);
  }

  /** The last seven rules and the `Unknown` fallback, where none of the first fourteen holds. */
  lemma LastRulesAgree(w: Workspace)
    requires !(IsNodeProject(w) || IsPythonProject(w) || IsJavaProject(w) || IsDotNetProject(w)
      || IsRubyProject(w) || IsGoProject(w) || IsRustProject(w) || IsReactProject(w)
      || IsAngularProject(w) || IsVueProject(w) || IsSvelteProject(w)
      || IsNextProject(w) || IsNuxtProject(w) || IsLaravelProject(w))
    ensures DetectChain(w) == DetectorService.Detect(w)
  {
    var rules := DetectorService.DetectionMethods();
    assert forall j :: 0 <= j < 14 ==> !rules[j].check(w);
    if IsSymfonyProject(w) { assert false; }  // is Laravel's predicate
    else if IsDjangoProject(w) { DetectorService.FirstHit(rules, w, 15); }
    else if IsFlaskProject(w) { assert false; }  // is Django's predicate
    else if IsExpressProject(w) { assert false; }  // needs package.json, so the Node rule held
    else if IsSpringProject(w) { assert false; }  // is Java's predicate
    else if IsHibernateProject(w) { assert false; }  // is Java's predicate
    else if IsFlutterProject(w) { DetectorService.FirstHit(rules, w, 20); }
    else { DetectorService.NoHit(rules, w); }
  }
}
