/** The linter: `ValidateMihomoConfig` and `failOnCriticalWarnings` in `internal/renderer/lint.go`, proved against
    what each warning code means. */
module ConfigLint {
  import opened Common
  import opened RuleText
  import opened RuleCatalog

  datatype Group = Group(name: string, kind: string, proxies: seq<string>)

  /** The parts of a generated configuration that refer to each other; proxies are given by name. */
  datatype Config = Config(proxies: seq<string>, groups: seq<Group>, providers: map<string, Provider>, rules: seq<string>)

  datatype Code =
    | DuplicateProxyName | DuplicateGroupName | DuplicateProviderPath | InvalidMrsBehavior
    | MissingProxyReference | InvalidRuleSet | MissingProviderReference | MissingRuleTarget
    | RulesWithoutProviders | MissingMatch | MatchNotLast

  predicate Critical(code: Code) {
    !code.RulesWithoutProviders?
  }

  // ---- What each code means ----

  function GroupNames(groups: seq<Group>): seq<string> {
    seq(|groups|, i requires 0 <= i < |groups| => groups[i].name)
  }

  /** Two providers, of those named, that use the same file. */
  ghost predicate SharedAmong(providers: map<string, Provider>, seen: set<string>) {
    exists a, b :: a in seen && b in seen && a in providers && b in providers
      && a != b && providers[a].path != "" && providers[a].path == providers[b].path
  }

  predicate BadShape(x: Lexicon, p: Provider) {
    x.lower(p.format) == "mrs" && x.lower(p.behavior) !in {"domain", "ipcidr"}
  }

  ghost predicate BadAmong(x: Lexicon, providers: map<string, Provider>, seen: set<string>) {
    exists name :: name in seen && name in providers && BadShape(x, providers[name])
  }

  predicate Resolves(x: Lexicon, cfg: Config, ref: string) {
    x.builtin(ref) || ref in cfg.proxies || ref in GroupNames(cfg.groups)
  }

  ghost predicate Dangles(x: Lexicon, cfg: Config, refs: seq<string>) {
    exists ref :: ref in refs && !Resolves(x, cfg, ref)
  }

  predicate IsRuleSet(x: Lexicon, rule: string) {
    x.split(rule) != [] && x.split(rule)[0] == x.ruleSetTag
  }

  predicate IsMatchRule(x: Lexicon, rule: string) {
    x.split(rule) != [] && x.split(rule)[0] != x.ruleSetTag && x.split(rule)[0] == x.matchTag
  }

  predicate BadTarget(x: Lexicon, cfg: Config, rule: string) {
    var parts := x.split(rule);
    |parts| >= 3 && !IsMatchRule(x, rule) && !x.builtin(x.trim(parts[2])) && x.trim(parts[2]) !in GroupNames(cfg.groups)
  }

  predicate BadProvider(x: Lexicon, cfg: Config, rule: string) {
    IsRuleSet(x, rule) && |x.split(rule)| >= 3 && x.trim(x.split(rule)[1]) !in cfg.providers
  }

  ghost predicate Problem(x: Lexicon, cfg: Config, code: Code) {
    match code
    case DuplicateProxyName => !Distinct(cfg.proxies)
    case DuplicateGroupName => !Distinct(GroupNames(cfg.groups))
    case DuplicateProviderPath => SharedAmong(cfg.providers, cfg.providers.Keys)
    case InvalidMrsBehavior => BadAmong(x, cfg.providers, cfg.providers.Keys)
    case MissingProxyReference => exists g :: g in cfg.groups && Dangles(x, cfg, g.proxies)
    case InvalidRuleSet => exists rule :: rule in cfg.rules && IsRuleSet(x, rule) && |x.split(rule)| < 3
    case MissingProviderReference => exists rule :: rule in cfg.rules && BadProvider(x, cfg, rule)
    case MissingRuleTarget => exists rule :: rule in cfg.rules && BadTarget(x, cfg, rule)
    case RulesWithoutProviders => cfg.providers == map[] && exists rule :: rule in cfg.rules && IsRuleSet(x, rule)
    case MissingMatch => forall rule | rule in cfg.rules :: !IsMatchRule(x, rule)
    case MatchNotLast => (exists rule :: rule in cfg.rules && IsMatchRule(x, rule)) && !IsMatchRule(x, cfg.rules[|cfg.rules| - 1])
  }

  // ---- The linter ----

  method LintNames(names: seq<string>, code: Code) returns (out: seq<Code>, seen: set<string>)
    ensures forall c :: c in out <==> c == code && !Distinct(names)
    ensures forall n :: n in seen <==> n in names
  {
    out, seen := [], {};
    for i := 0 to |names|
      invariant forall c :: c in out <==> c == code && !Distinct(names[..i])
      invariant forall n :: n in seen <==> n in names[..i]
    {
      DistinctLast(names[..i], names[i]);
      assert names[..i + 1] == names[..i] + [names[i]];
      if names[i] in seen {
        out := out + [code];
      }
      seen := seen + {names[i]};
    }
    assert names[..|names|] == names;
  }

  lemma DistinctLast(names: seq<string>, name: string)
    ensures Distinct(names + [name]) <==> Distinct(names) && name !in names
  {
    var all := names + [name];
    assert all[|names|] == name && forall i | 0 <= i < |names| :: all[i] == names[i];
  }

  /** The path table holds, for each path seen, a provider seen with it. */
  ghost predicate PathsOf(providers: map<string, Provider>, seen: set<string>, paths: map<string, string>) {
    && (forall p | p in paths :: paths[p] in seen && paths[p] in providers && providers[paths[p]].path == p && p != "")
    && (forall n | n in seen && n in providers && providers[n].path != "" :: providers[n].path in paths)
  }

  lemma PathStep(providers: map<string, Provider>, seen: set<string>, paths: map<string, string>, name: string)
    requires PathsOf(providers, seen, paths) && name in providers && name !in seen
    ensures var p := providers[name].path;
            && PathsOf(providers, seen + {name}, if p == "" then paths else paths[p := name])
            && (SharedAmong(providers, seen + {name}) <==> SharedAmong(providers, seen) || (p != "" && p in paths))
  {
  }

  method LintProviders(x: Lexicon, providers: map<string, Provider>) returns (out: seq<Code>)
    ensures forall c :: c in out <==>
      ((c == DuplicateProviderPath && SharedAmong(providers, providers.Keys))
       || (c == InvalidMrsBehavior && BadAmong(x, providers, providers.Keys)))
  {
    out := [];
    var paths: map<string, string> := map[];
    var seen: set<string>, todo := {}, providers.Keys;
    ghost var bad := false;
    while todo != {}
      invariant seen !! todo && seen + todo == providers.Keys
      invariant PathsOf(providers, seen, paths)
      invariant bad <==> BadAmong(x, providers, seen)
      invariant forall c :: c in out <==> (c == DuplicateProviderPath && SharedAmong(providers, seen)) || (c == InvalidMrsBehavior && bad)
      decreases todo
    {
      var name :| name in todo;
      PathStep(providers, seen, paths, name);
      var provider := providers[name];
      seen, todo := seen + {name}, todo - {name};
      if provider.path != "" {
        if provider.path in paths {
          out := out + [DuplicateProviderPath];
        }
        paths := paths[provider.path := name];
      }
      if BadShape(x, provider) {
        out, bad := out + [InvalidMrsBehavior], true;
      }
    }
    assert seen == providers.Keys;
  }

  method LintReferences(x: Lexicon, cfg: Config) returns (out: seq<Code>)
    ensures forall c :: c in out <==> c == MissingProxyReference && exists g :: g in cfg.groups && Dangles(x, cfg, g.proxies)
  {
    out := [];
    ghost var bad := false;
    for i := 0 to |cfg.groups|
      invariant bad <==> exists g :: g in cfg.groups[..i] && Dangles(x, cfg, g.proxies)
      invariant forall c :: c in out <==> c == MissingProxyReference && bad
    {
      assert cfg.groups[..i + 1] == cfg.groups[..i] + [cfg.groups[i]];
      var more := LintGroup(x, cfg, cfg.groups[i]);
      assert more != [] ==> more[0] in more;
      out := out + more;
      bad := bad || more != [];
    }
    assert cfg.groups[..|cfg.groups|] == cfg.groups;
  }

  method LintGroup(x: Lexicon, cfg: Config, g: Group) returns (out: seq<Code>)
    ensures forall c | c in out :: c == MissingProxyReference
    ensures out != [] <==> Dangles(x, cfg, g.proxies)
  {
    out := [];
    for j := 0 to |g.proxies|
      invariant forall c | c in out :: c == MissingProxyReference
      invariant out != [] <==> Dangles(x, cfg, g.proxies[..j])
    {
      var ref := g.proxies[j];
      DanglesLast(x, cfg, g.proxies[..j], ref);
      assert g.proxies[..j + 1] == g.proxies[..j] + [ref];
      if x.builtin(ref) {
        continue;
      }
      if ref in cfg.proxies || ref in GroupNames(cfg.groups) {
        continue;
      }
      out := out + [MissingProxyReference];
    }
    assert g.proxies[..|g.proxies|] == g.proxies;
  }

  lemma DanglesLast(x: Lexicon, cfg: Config, refs: seq<string>, ref: string)
    ensures Dangles(x, cfg, refs + [ref]) <==> Dangles(x, cfg, refs) || !Resolves(x, cfg, ref)
  {
  }

  /** The warnings of one rule. */
  method LintRule(x: Lexicon, cfg: Config, rule: string) returns (out: seq<Code>)
    ensures forall c :: c in out <==> || (c == InvalidRuleSet && IsRuleSet(x, rule) && |x.split(rule)| < 3)
                                      || (c == MissingProviderReference && BadProvider(x, cfg, rule))
                                      || (c == MissingRuleTarget && BadTarget(x, cfg, rule))
  {
    out := [];
    var parts := x.split(rule);
    if |parts| == 0 {
      return;
    }
    if parts[0] == x.ruleSetTag {
      if |parts| < 3 {
        return [InvalidRuleSet];
      }
      if x.trim(parts[1]) !in cfg.providers {
        out := out + [MissingProviderReference];
      }
      var target := x.trim(parts[2]);
      if x.builtin(target) {
        return;
      }
      if target !in GroupNames(cfg.groups) {
        out := out + [MissingRuleTarget];
      }
    } else if parts[0] == x.matchTag {
    } else if |parts| >= 3 {
      var target := x.trim(parts[2]);
      if x.builtin(target) {
        return;
      }
      if target !in GroupNames(cfg.groups) {
        out := out + [MissingRuleTarget];
      }
    }
  }

  ghost predicate RuleProblem(x: Lexicon, cfg: Config, rules: seq<string>, c: Code) {
    || (c == InvalidRuleSet && exists rule :: rule in rules && IsRuleSet(x, rule) && |x.split(rule)| < 3)
    || (c == MissingProviderReference && exists rule :: rule in rules && BadProvider(x, cfg, rule))
    || (c == MissingRuleTarget && exists rule :: rule in rules && BadTarget(x, cfg, rule))
  }

  method LintRules(x: Lexicon, cfg: Config) returns (out: seq<Code>, hasRuleSet: bool, matchIndex: int)
    ensures forall c :: c in out <==> RuleProblem(x, cfg, cfg.rules, c)
    ensures hasRuleSet <==> exists rule :: rule in cfg.rules && IsRuleSet(x, rule)
    ensures -1 <= matchIndex < |cfg.rules|
    ensures matchIndex >= 0 ==> IsMatchRule(x, cfg.rules[matchIndex])
    ensures forall i | matchIndex < i < |cfg.rules| :: !IsMatchRule(x, cfg.rules[i])
  {
    out, hasRuleSet, matchIndex := [], false, -1;
    for i := 0 to |cfg.rules|
      invariant forall c :: c in out <==> RuleProblem(x, cfg, cfg.rules[..i], c)
      invariant hasRuleSet <==> exists rule :: rule in cfg.rules[..i] && IsRuleSet(x, rule)
      invariant -1 <= matchIndex < i
      invariant matchIndex >= 0 ==> IsMatchRule(x, cfg.rules[matchIndex])
      invariant forall j | matchIndex < j < i :: !IsMatchRule(x, cfg.rules[j])
    {
      var rule := cfg.rules[i];
      assert cfg.rules[..i + 1] == cfg.rules[..i] + [rule];
      var more := LintRule(x, cfg, rule);
      forall c ensures c in out + more <==> RuleProblem(x, cfg, cfg.rules[..i + 1], c) {
        assert rule in [rule];
        assert c in more <==> RuleProblem(x, cfg, [rule], c);
      }
      out := out + more;
      if IsRuleSet(x, rule) {
        hasRuleSet := true;
      }
      if IsMatchRule(x, rule) {
        matchIndex := i;
      }
    }
    assert cfg.rules[..|cfg.rules|] == cfg.rules;
  }

  /** `ValidateMihomoConfig`: a code is reported exactly when the configuration has that problem. */
  method ValidateMihomoConfig(x: Lexicon, cfg: Config) returns (warnings: seq<Code>)
    ensures forall code :: code in warnings <==> Problem(x, cfg, code)
  {
    var proxies, _ := LintNames(cfg.proxies, DuplicateProxyName);
    var groups, _ := LintNames(GroupNames(cfg.groups), DuplicateGroupName);
    var providers := LintProviders(x, cfg.providers);
    var references := LintReferences(x, cfg);
    var rules, hasRuleSet, matchIndex := LintRules(x, cfg);
    var last := [];
    if hasRuleSet && |cfg.providers| == 0 {
      last := last + [RulesWithoutProviders];
    }
    if matchIndex == -1 {
      last := last + [MissingMatch];
    } else if matchIndex != |cfg.rules| - 1 {
      last := last + [MatchNotLast];
    }
    warnings := proxies + groups + providers + references + rules + last;
    LastCodes(x, cfg, matchIndex);
    assert |cfg.providers| == 0 <==> cfg.providers == map[];
  }

  lemma LastCodes(x: Lexicon, cfg: Config, matchIndex: int)
    requires -1 <= matchIndex < |cfg.rules|
    requires matchIndex >= 0 ==> IsMatchRule(x, cfg.rules[matchIndex])
    requires forall i | matchIndex < i < |cfg.rules| :: !IsMatchRule(x, cfg.rules[i])
    ensures Problem(x, cfg, MissingMatch) <==> matchIndex == -1
    ensures Problem(x, cfg, MatchNotLast) <==> matchIndex != -1 && matchIndex != |cfg.rules| - 1
  {
  }

  /** `failOnCriticalWarnings`. */
  method FailOnCriticalWarnings(warnings: seq<Code>) returns (ok: bool)
    ensures ok <==> forall c | c in warnings :: !Critical(c)
  {
    var critical: seq<Code> := [];
    for i := 0 to |warnings|
      invariant critical == [] <==> forall c | c in warnings[..i] :: !Critical(c)
    {
      assert warnings[..i + 1] == warnings[..i] + [warnings[i]];
      if Critical(warnings[i]) {
        critical := critical + [warnings[i]];
      }
    }
    assert warnings[..|warnings|] == warnings;
    ok := critical == [];
  }

  ghost predicate Accepted(x: Lexicon, cfg: Config) {
    forall code | Critical(code) :: !Problem(x, cfg, code)
  }

  // ---- The same in terms of the configuration alone ----

  /** A proxy or a group has the name, or it is built in. */
  ghost predicate Known(x: Lexicon, cfg: Config, ref: string) {
    x.builtin(ref) || (exists i :: 0 <= i < |cfg.proxies| && cfg.proxies[i] == ref) || GroupNamed(cfg, ref)
  }

  ghost predicate GroupNamed(cfg: Config, name: string) {
    exists i :: 0 <= i < |cfg.groups| && cfg.groups[i].name == name
  }

  /** The rule begins with the word for rule sets, or else with the word for the final rule. */
  ghost predicate Begins(x: Lexicon, rule: string, word: string) {
    x.split(rule) != [] && x.split(rule)[0] == word
  }

  /** The target of a rule that needs one is neither built in nor a group. */
  ghost predicate TargetUnknown(x: Lexicon, cfg: Config, rule: string) {
    && |x.split(rule)| >= 3 && (Begins(x, rule, x.ruleSetTag) || !Begins(x, rule, x.matchTag))
    && !x.builtin(x.trim(x.split(rule)[2])) && !GroupNamed(cfg, x.trim(x.split(rule)[2]))
  }

  /** What is wrong with a configuration that has this code. */
  ghost predicate Wrong(x: Lexicon, cfg: Config, code: Code) {
    match code
    case DuplicateProxyName => exists i, j :: 0 <= i < j < |cfg.proxies| && cfg.proxies[i] == cfg.proxies[j]
    case DuplicateGroupName => exists i, j :: 0 <= i < j < |cfg.groups| && cfg.groups[i].name == cfg.groups[j].name
    case DuplicateProviderPath =>
      exists a, b :: a in cfg.providers && b in cfg.providers && a != b && cfg.providers[a].path == cfg.providers[b].path != ""
    case InvalidMrsBehavior =>
      exists a :: a in cfg.providers && x.lower(cfg.providers[a].format) == "mrs"
        && x.lower(cfg.providers[a].behavior) != "domain" && x.lower(cfg.providers[a].behavior) != "ipcidr"
    case MissingProxyReference => exists g, ref :: g in cfg.groups && ref in g.proxies && !Known(x, cfg, ref)
    case InvalidRuleSet => exists rule :: rule in cfg.rules && Begins(x, rule, x.ruleSetTag) && |x.split(rule)| < 3
    case MissingProviderReference =>
      exists rule :: rule in cfg.rules && Begins(x, rule, x.ruleSetTag) && |x.split(rule)| >= 3 && x.trim(x.split(rule)[1]) !in cfg.providers
    case MissingRuleTarget =>
      exists rule :: rule in cfg.rules && TargetUnknown(x, cfg, rule)
    case RulesWithoutProviders => cfg.providers == map[] && exists rule :: rule in cfg.rules && Begins(x, rule, x.ruleSetTag)
    case MissingMatch => forall rule | rule in cfg.rules :: !Begins(x, rule, x.matchTag)
    case MatchNotLast => (exists rule :: rule in cfg.rules && Begins(x, rule, x.matchTag)) && !Begins(x, cfg.rules[|cfg.rules| - 1], x.matchTag)
  }

  lemma NamedIff(cfg: Config, name: string)
    ensures name in GroupNames(cfg.groups) <==> GroupNamed(cfg, name)
  {
    if GroupNamed(cfg, name) {
      var i :| 0 <= i < |cfg.groups| && cfg.groups[i].name == name;
      assert GroupNames(cfg.groups)[i] == name;
    }
  }

  lemma RuleIff(x: Lexicon, cfg: Config, rule: string)
    requires x.ruleSetTag != x.matchTag
    ensures IsRuleSet(x, rule) <==> Begins(x, rule, x.ruleSetTag)
    ensures IsMatchRule(x, rule) <==> Begins(x, rule, x.matchTag)
    ensures BadTarget(x, cfg, rule) <==> TargetUnknown(x, cfg, rule)
    ensures BadProvider(x, cfg, rule) <==> (Begins(x, rule, x.ruleSetTag) && |x.split(rule)| >= 3 && x.trim(x.split(rule)[1]) !in cfg.providers)
  {
    if |x.split(rule)| >= 3 {
      NamedIff(cfg, x.trim(x.split(rule)[2]));
    }
  }

  lemma RuleProblemsAre(x: Lexicon, cfg: Config, code: Code)
    requires x.ruleSetTag != x.matchTag
    requires code in [InvalidRuleSet, MissingProviderReference, MissingRuleTarget, RulesWithoutProviders, MissingMatch, MatchNotLast]
    ensures Problem(x, cfg, code) <==> Wrong(x, cfg, code)
  {
    forall rule
      ensures (IsRuleSet(x, rule) <==> Begins(x, rule, x.ruleSetTag)) && (IsMatchRule(x, rule) <==> Begins(x, rule, x.matchTag))
      ensures BadTarget(x, cfg, rule) <==> TargetUnknown(x, cfg, rule)
    {
      RuleIff(x, cfg, rule);
    }
  }

  lemma DistinctIff(names: seq<string>)
    ensures !Distinct(names) <==> exists i, j :: 0 <= i < j < |names| && names[i] == names[j]
  {
  }

  lemma NameProblemsAre(x: Lexicon, cfg: Config, code: Code)
    requires code in [DuplicateProxyName, DuplicateGroupName, DuplicateProviderPath, InvalidMrsBehavior, MissingProxyReference]
    ensures Problem(x, cfg, code) <==> Wrong(x, cfg, code)
  {
    match code
    case DuplicateProxyName => DistinctIff(cfg.proxies);
    case DuplicateGroupName =>
      var names := GroupNames(cfg.groups);
      DistinctIff(names);
      assert forall i | 0 <= i < |names| :: names[i] == cfg.groups[i].name;
    case MissingProxyReference =>
      forall ref ensures Resolves(x, cfg, ref) <==> Known(x, cfg, ref) {
        NamedIff(cfg, ref);
      }
    case _ =>
  }

  /** A code is reported exactly when this is wrong. */
  lemma ProblemIsWrong(x: Lexicon, cfg: Config, code: Code)
    requires x.ruleSetTag != x.matchTag
    ensures Problem(x, cfg, code) <==> Wrong(x, cfg, code)
  {
    if code in [DuplicateProxyName, DuplicateGroupName, DuplicateProviderPath, InvalidMrsBehavior, MissingProxyReference] {
      NameProblemsAre(x, cfg, code);
    } else {
      RuleProblemsAre(x, cfg, code);
    }
  }

  /** A configuration is accepted exactly if nothing is wrong with it but, at most, that its rules have no providers. */
  lemma AcceptedIff(x: Lexicon, cfg: Config)
    requires x.ruleSetTag != x.matchTag
    ensures Accepted(x, cfg) <==> forall code | code != RulesWithoutProviders :: !Wrong(x, cfg, code)
  {
    forall code ensures Problem(x, cfg, code) <==> Wrong(x, cfg, code) {
      ProblemIsWrong(x, cfg, code);
    }
  }
}
