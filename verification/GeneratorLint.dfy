/** The generator satisfies its own linter. Groups, rules and providers are built by three functions that resolve
    the same inputs on their own, custom rules included; for any well-formed catalog what they build together has
    no critical problem except those the user's input brings in: repeated or unresolvable node names, existing
    groups that custom rules name but nobody makes, and custom providers that clash. */
module GeneratorLint {
  import opened Common
  import opened RuleText
  import opened RuleCatalog
  import opened ConfigLint
  import opened CustomRules
  import opened ProxyGroups
  import opened RuleBuilder
  import opened PlannedGroups
  import opened GeneratedConfig

  // ---- What the parts must meet ----

  /** The target of a resolved rule is built in, or a group that is there. */
  ghost predicate Targeted(x: Lexicon, cfg: Config, r: Compiled) {
    x.builtin(r.target) || r.target in GroupNames(cfg.groups)
  }

  /** Custom rules for an existing group name one that is there. */
  ghost predicate ExistingTargets(x: Lexicon, cfg: Config, out: seq<Compiled>) {
    forall i | 0 <= i < |out| && out[i].line != "" && !out[i].create :: Targeted(x, cfg, out[i])
  }

  /** The providers do not clash: no two share a file, and none has a shape its format forbids. */
  ghost predicate ProvidersFit(x: Lexicon, cfg: Config) {
    !SharedAmong(cfg.providers, cfg.providers.Keys) && !BadAmong(x, cfg.providers, cfg.providers.Keys)
  }

  // ---- References ----

  ghost predicate RegularResolve(x: Lexicon, cfg: Config, regular: seq<string>) {
    forall n | n in regular :: Resolves(x, cfg, x.trim(n))
  }

  /** References dangle exactly when some regular name does. */
  lemma ReferencesCloseIff(x: Lexicon, f: Layout, categories: seq<Category>, regular: seq<string>, regions: seq<Resolved>,
                           created: seq<string>, cfg: Config, main: Group)
    requires BuiltinLaws(x) && RefsAllowed(x, f.names, regular, regions, cfg.groups)
    requires NamesPresent(x, f, categories, regular, regions, created, GroupNames(cfg.groups))
    requires main in cfg.groups && ListsAll(x, regular, main.proxies)
    ensures !Problem(x, cfg, MissingProxyReference) <==> RegularResolve(x, cfg, regular)
  {
    if RegularResolve(x, cfg, regular) {
      forall g, ref | g in cfg.groups && ref in g.proxies ensures Resolves(x, cfg, ref) {
        assert Allowed(x, f.names, regular, regions, ref);
        AllowedResolves(x, f, categories, regular, regions, created, cfg, ref);
      }
    } else {
      var n :| n in regular && !Resolves(x, cfg, x.trim(n));
      assert x.trim(n) in main.proxies;
      assert Dangles(x, cfg, main.proxies);
    }
  }

  lemma AllowedResolves(x: Lexicon, f: Layout, categories: seq<Category>, regular: seq<string>, regions: seq<Resolved>,
                         created: seq<string>, cfg: Config, ref: string)
    requires BuiltinLaws(x) && ref != "" && Allowed(x, f.names, regular, regions, ref)
    requires NamesPresent(x, f, categories, regular, regions, created, GroupNames(cfg.groups))
    requires RegularResolve(x, cfg, regular)
    ensures Resolves(x, cfg, ref)
  {
    if Mentions(x, regular, ref) {
      var i :| 0 <= i < |regular| && x.trim(regular[i]) == ref;
      assert regular[i] in regular;
    }
  }

  // ---- Rules ----

  /** A rule written from a good specification of an enabled category. */
  ghost predicate GoodLine(x: Lexicon, f: Layout, categories: seq<Category>, line: string) {
    exists c, s :: c in categories && GoodSpec(x, f, c, s) && line == x.ruleSet(s)
  }

  ghost predicate FromRules(x: Lexicon, categories: seq<Category>, line: string) {
    exists c, s :: c in categories && s in c.rules && line == x.ruleSet(s)
  }

  lemma {:induction false} LinesComeFromRules(x: Lexicon, categories: seq<Category>)
    ensures forall line | line in NormalLines(x, categories) || line in TrailingLines(x, categories) :: FromRules(x, categories, line)
  {
    if categories != [] {
      var init, c := categories[..|categories| - 1], categories[|categories| - 1];
      LinesComeFromRules(x, init);
      assert categories == init + [c];
      forall line | line in NormalLines(x, categories) || line in TrailingLines(x, categories) ensures FromRules(x, categories, line) {
        if FromRules(x, init, line) {
          var d, s :| d in init && s in d.rules && line == x.ruleSet(s);
          assert d in categories;
        } else {
          assert line in Lines(x, c.rules);
          var i :| 0 <= i < |c.rules| && Lines(x, c.rules)[i] == line;
          assert c in categories && c.rules[i] in c.rules;
        }
      }
    }
  }

  lemma BaseLinesAreGood(x: Lexicon, f: Layout, c: Catalog, keys: seq<string>)
    requires WellFormed(x, f, c)
    ensures forall line | line in BaseRules(x, f, c, keys) :: GoodLine(x, f, Ordered(c, x, keys), line)
  {
    var enabled := NormalizeKeys(c, x, keys);
    var categories := OrderedForRules(c, x, enabled);
    NormalizeIsIdempotent(c, x, keys);
    LinesComeFromRules(x, categories);
    forall line | line in BaseRules(x, f, c, keys) ensures GoodLine(x, f, Ordered(c, x, keys), line) {
      if line in DomesticLines(x, f, enabled) {
        DomesticIsGood(x, f, c, keys);
      } else {
        assert FromRules(x, categories, line);
        var d, s :| d in categories && s in d.rules && line == x.ruleSet(s);
        SameCategories(c, x, enabled, d);
        var k :| k in enabled && k in c.table && c.table[k] == d;
        assert GoodSpec(x, f, d, s);
      }
    }
  }

  lemma DomesticIsGood(x: Lexicon, f: Layout, c: Catalog, keys: seq<string>)
    requires WellFormed(x, f, c) && "domestic" in NormalizeKeys(c, x, keys)
    ensures GoodLine(x, f, Ordered(c, x, keys), x.ruleSet(Spec(f.cnProvider, f.domesticTarget, false)))
  {
    NormalizeSettles(c, x, keys);
    var enabled := NormalizeKeys(c, x, keys);
    var i :| 0 <= i < |enabled| && enabled[i] == "domestic";
    assert enabled[i] in c.table;
    SameCategories(c, x, keys, c.table["domestic"]);
  }

  /** A written rule with a clean provider and target. */
  ghost predicate RuleLine(x: Lexicon, line: string) {
    exists s: Spec :: x.clean(s.provider) && x.clean(s.target) && line == x.ruleSet(s)
  }

  lemma RuleLineIsText(x: Lexicon, line: string)
    requires RuleLaws(x) && RuleLine(x, line)
    ensures x.trim(line) == line && line != "" && !x.isMatch(line)
  {
    var s: Spec :| x.clean(s.provider) && x.clean(s.target) && line == x.ruleSet(s);
    assert RuleLineLaw(x, s);
  }

  ghost predicate AllRuleLines(x: Lexicon, lines: seq<string>) {
    forall line | line in lines :: RuleLine(x, line)
  }

  lemma NoMatchAmong(x: Lexicon, lines: seq<string>, m: string)
    requires RuleLaws(x) && x.isMatch(m) && AllRuleLines(x, lines)
    ensures !Mentions(x, lines, m)
  {
    forall i | 0 <= i < |lines| ensures x.trim(lines[i]) != m {
      assert lines[i] in lines;
      RuleLineIsText(x, lines[i]);
    }
  }

  lemma UniqueLines(x: Lexicon, lines: seq<string>)
    requires TrimLaws(x) && RuleLaws(x) && AllRuleLines(x, lines)
    ensures forall line :: line in Unique(x, lines) <==> line in lines
  {
    forall line | line in Unique(x, lines) ensures line in lines {
      UniqueComesFrom(x, lines, line);
      var r :| r in lines && x.trim(r) == line;
      RuleLineIsText(x, r);
    }
    forall line | line in lines ensures line in Unique(x, lines) {
      RuleLineIsText(x, line);
      NotEmpty(x, lines, line);
    }
  }

  /** Merging rule lines in front of base lines and a MATCH rule: nothing is lost, and the MATCH rule is last. */
  lemma MergedLines(x: Lexicon, extras: seq<string>, base: seq<string>, m: string)
    requires TrimLaws(x) && RuleLaws(x) && AllRuleLines(x, extras) && AllRuleLines(x, base)
    requires x.isMatch(m) && x.trim(m) == m && m != ""
    ensures MergeRules(x, extras, base + [m]) == Unique(x, extras + Unique(x, base)) + [m]
    ensures forall line :: line in Unique(x, extras + Unique(x, base)) <==> line in extras || line in base
  {
    NoMatchAmong(x, base, m);
    MergedBase(x, extras, base, m);
    UniqueLines(x, base);
    var front := extras + Unique(x, base);
    assert AllRuleLines(x, front);
    NoMatchAmong(x, front, m);
    UniqueKeepsLast(x, front, m);
    UniqueLines(x, front);
  }

  lemma {:induction false} CustomLinesAre(out: seq<Compiled>, line: string)
    ensures line in CustomLines(out) <==> exists i :: 0 <= i < |out| && out[i].line != "" && out[i].line == line
  {
    if out != [] {
      var init, last := out[..|out| - 1], out[|out| - 1];
      CustomLinesAre(init, line);
      assert forall i | 0 <= i < |init| :: init[i] == out[i];
    }
  }

  /** The line of a resolved rule is written from its key and its target. */
  lemma {:induction false} LinesAreWritten(x: Lexicon, f: Names, rules: seq<CustomRule>, reserved: set<string>, i: nat)
    requires i < |Resolve(x, f, rules, reserved).out|
    ensures var c := Resolve(x, f, rules, reserved).out[i];
            c.line == "" || exists s: Spec :: s.provider == c.key && s.target == c.target && c.line == x.ruleSet(s)
  {
    var init, rule := rules[..|rules| - 1], rules[|rules| - 1];
    if i < |Resolve(x, f, init, reserved).out| {
      LinesAreWritten(x, f, init, reserved, i);
    }
  }

  /** Normalising lines that normalisation leaves alone keeps them. */
  lemma {:induction false} PlainLinesStay(x: Lexicon, norm: string -> string, lines: seq<string>)
    requires forall i | 0 <= i < |lines| :: norm(lines[i]) == lines[i] && lines[i] != ""
    ensures NotBlank(x, norm, lines) == lines
  {
    if lines != [] {
      PlainLinesStay(x, norm, lines[..|lines| - 1]);
    }
  }

  // ---- Rules have their providers and targets ----

  ghost predicate Closed(x: Lexicon, cfg: Config, line: string) {
    IsRuleSet(x, line) && |x.split(line)| >= 3 && !BadProvider(x, cfg, line) && !BadTarget(x, cfg, line)
  }

  /** A rule line is closed exactly when its provider and its target are there. */
  lemma LineClosesIff(x: Lexicon, cfg: Config, s: Spec)
    requires TrimLaws(x) && RuleLaws(x) && x.clean(s.provider) && x.clean(s.target)
    ensures var line := x.ruleSet(s);
            && IsRuleSet(x, line) && |x.split(line)| >= 3 && (BadProvider(x, cfg, line) <==> s.provider !in cfg.providers)
            && (BadTarget(x, cfg, line) <==> !x.builtin(s.target) && s.target !in GroupNames(cfg.groups))
  {
    assert RuleLineLaw(x, s);
  }

  /** A catalog line has its provider. */
  lemma GoodLineHasProvider(x: Lexicon, f: Layout, categories: seq<Category>, cfg: Config, extra: seq<Provider>, line: string)
    requires TrimLaws(x) && RuleLaws(x) && GoodLine(x, f, categories, line)
    requires cfg.providers == PutAll(CatalogProviders(categories), extra)
    ensures IsRuleSet(x, line) && |x.split(line)| >= 3 && !BadProvider(x, cfg, line)
  {
    var c, s :| c in categories && GoodSpec(x, f, c, s) && line == x.ruleSet(s);
    CatalogProvidersMembers(categories);
    PutAllMembers(CatalogProviders(categories), extra);
    var p :| p in c.providers && p.name == s.provider;
    assert Offers(categories, p);
    LineClosesIff(x, cfg, s);
  }

  /** A catalog line is closed. */
  lemma GoodLineCloses(x: Lexicon, f: Layout, categories: seq<Category>, regular: seq<string>, regions: seq<Resolved>, created: seq<string>,
                       cfg: Config, extra: seq<Provider>, line: string)
    requires TrimLaws(x) && RuleLaws(x) && GoodLine(x, f, categories, line)
    requires NamesPresent(x, f, categories, regular, regions, created, GroupNames(cfg.groups))
    requires cfg.providers == PutAll(CatalogProviders(categories), extra)
    ensures Closed(x, cfg, line)
  {
    GoodLineHasProvider(x, f, categories, cfg, extra, line);
    var c, s :| c in categories && GoodSpec(x, f, c, s) && line == x.ruleSet(s);
    LineClosesIff(x, cfg, s);
  }

  lemma {:induction false} CustomProvidersHave(build: Compiled -> Provider, out: seq<Compiled>, i: nat)
    requires i < |out| && out[i].line != ""
    ensures build(out[i]) in CustomProviders(build, out)
  {
    if i < |out| - 1 {
      CustomProvidersHave(build, out[..|out| - 1], i);
    }
  }

  /** A custom line is closed exactly when its target is there. */
  lemma CustomLineClosesIff(x: Lexicon, f: Layout, c: Catalog, build: Compiled -> Provider, rules: seq<CustomRule>, keys: seq<string>,
                            cfg: Config, i: nat)
    requires TrimLaws(x) && RuleLaws(x) && Flat(c, x) && i < |CompiledRules(x, f, c, rules, keys)|
    requires forall r :: build(r).name == r.key
    requires cfg.providers == PutAll(CatalogProviders(Ordered(c, x, keys)), CustomProviders(build, CompiledRules(x, f, c, rules, keys)))
    requires var r := CompiledRules(x, f, c, rules, keys)[i]; r.line != "" && x.clean(r.key) && x.clean(r.target)
    ensures var r := CompiledRules(x, f, c, rules, keys)[i];
            RuleLine(x, r.line) && (Closed(x, cfg, r.line) <==> x.builtin(r.target) || r.target in GroupNames(cfg.groups))
            && IsRuleSet(x, r.line) && |x.split(r.line)| >= 3 && !BadProvider(x, cfg, r.line)
  {
    var out := CompiledRules(x, f, c, rules, keys);
    LinesAreWritten(x, f.names, rules, Reserved(x, f.names, [], Ordered(c, x, keys), []), i);
    var s: Spec :| s.provider == out[i].key && s.target == out[i].target && out[i].line == x.ruleSet(s);
    CustomProvidersHave(build, out, i);
    PutAllMembers(CatalogProviders(Ordered(c, x, keys)), CustomProviders(build, out));
    LineClosesIff(x, cfg, s);
  }

  lemma RulesCloseIff(x: Lexicon, cfg: Config, front: seq<string>, m: string)
    requires cfg.rules == front + [m] && IsMatchRule(x, m)
    requires forall line | line in front :: IsRuleSet(x, line) && |x.split(line)| >= 3 && !BadProvider(x, cfg, line)
    ensures !Problem(x, cfg, InvalidRuleSet) && !Problem(x, cfg, MissingProviderReference)
    ensures !Problem(x, cfg, MissingRuleTarget) <==> forall line | line in front :: !BadTarget(x, cfg, line)
    ensures !Problem(x, cfg, MissingMatch) && !Problem(x, cfg, MatchNotLast)
  {
    assert cfg.rules[|front|] == m;
    assert forall line | line in cfg.rules :: line in front || line == m;
    assert m in cfg.rules && forall line | line in front :: line in cfg.rules;
  }

  lemma PolicyIsTrimmed(x: Lexicon, f: Layout, policy: string)
    requires TrimLaws(x) && NamesApart(x, f)
    ensures x.trim(Policy(x, f, policy)) == Policy(x, f, policy) && Policy(x, f, policy) != ""
  {
    FixedInNames(f.names);
  }

  // ---- Groups that rules create ----

  /** A group that a rule creates is there under the name the rule uses, even if the group builder, which also keeps
      clear of region groups, gave the rule's own group another name. */
  lemma CreatedTargetsExist(x: Lexicon, f: Layout, c: Catalog, nodes: seq<Item>, keys: seq<string>, rules: seq<CustomRule>, opt: Options,
                            regular: seq<string>, regions: seq<Resolved>, names: seq<string>, i: nat)
    requires Flat(c, x) && regions == ResolvedRegions(x, f, nodes, opt)
    requires NamesPresent(x, f, Ordered(c, x, keys), regular, regions, CreatedFor(x, f, c, nodes, keys, rules, opt), names)
    requires i < |CompiledRules(x, f, c, rules, keys)| && CompiledRules(x, f, c, rules, keys)[i].create
    ensures CompiledRules(x, f, c, rules, keys)[i].target in names
  {
    var categories := Ordered(c, x, keys);
    var plain, more := Reserved(x, f.names, [], categories, []), Reserved(x, f.names, RegionReserved(regions), categories, []);
    var out, target := CompiledRules(x, f, c, rules, keys), CompiledRules(x, f, c, rules, keys)[i].target;
    CreatedHas(out, i);
    CreatedAreNew(x, f.names, rules, plain);
    CreatedAreNew(x, f.names, rules, more);
    NamesAreTaken(x, f.names, rules, plain, more);
    assert target in Resolve(x, f.names, rules, more).reserved && target !in plain;
    ReservedRegions(x, regions);
  }

  lemma {:induction false} CreatedHas(out: seq<Compiled>, i: nat)
    requires i < |out| && out[i].create
    ensures out[i].target in Created(out)
  {
    if i < |out| - 1 {
      CreatedHas(out[..|out| - 1], i);
    }
  }

  // ---- The theorem ----

  /** Rules that are all closed but for the targets of the custom ones. */
  ghost predicate RulesFit(x: Lexicon, cfg: Config, front: seq<string>, m: string, out: seq<Compiled>) {
    && cfg.rules == front + [m] && IsMatchRule(x, m)
    && (forall line | line in front :: IsRuleSet(x, line) && |x.split(line)| >= 3 && !BadProvider(x, cfg, line))
    && ((forall line | line in front :: !BadTarget(x, cfg, line)) <==> forall i | 0 <= i < |out| && out[i].line != "" :: Targeted(x, cfg, out[i]))
  }

  /** The lines of plain custom rules, normalised and made unique, are the same lines. */
  lemma ExtrasAre(x: Lexicon, norm: string -> string, out: seq<Compiled>)
    requires TrimLaws(x) && RuleLaws(x) && PlainRules(x, norm, out)
    requires forall i | 0 <= i < |out| && out[i].line != "" :: RuleLine(x, out[i].line)
    ensures AllRuleLines(x, Extras(x, norm, CustomLines(out), [], []))
    ensures forall line :: line in Extras(x, norm, CustomLines(out), [], []) <==> exists i :: 0 <= i < |out| && out[i].line != "" && out[i].line == line
  {
    var lines := CustomLines(out);
    forall i | 0 <= i < |lines| ensures norm(lines[i]) == lines[i] && lines[i] != "" && RuleLine(x, lines[i]) {
      assert lines[i] in lines;
      CustomLinesAre(out, lines[i]);
    }
    PlainLinesStay(x, norm, lines);
    assert Extras(x, norm, lines, [], []) == Unique(x, lines);
    assert AllRuleLines(x, lines);
    UniqueLines(x, lines);
    forall line ensures line in lines <==> exists i :: 0 <= i < |out| && out[i].line != "" && out[i].line == line {
      CustomLinesAre(out, line);
    }
  }

  lemma BaseIsRuleLines(x: Lexicon, f: Layout, c: Catalog, keys: seq<string>)
    requires WellFormed(x, f, c)
    ensures AllRuleLines(x, BaseRules(x, f, c, keys))
  {
    BaseLinesAreGood(x, f, c, keys);
    forall line | line in BaseRules(x, f, c, keys) ensures RuleLine(x, line) {
      var d, s :| d in Ordered(c, x, keys) && GoodSpec(x, f, d, s) && line == x.ruleSet(s);
    }
  }

  /** Rules in terms of lines: custom ones in front, then the base, then MATCH. */
  lemma RulesAre(x: Lexicon, f: Layout, c: Catalog, norm: string -> string, keys: seq<string>, policy: string, out: seq<Compiled>)
    returns (front: seq<string>, m: string)
    requires Lawful(x) && WellFormed(x, f, c) && PlainRules(x, norm, out)
    requires forall i | 0 <= i < |out| && out[i].line != "" :: RuleLine(x, out[i].line)
    ensures Rules(x, f, c, norm, keys, policy, CustomLines(out), [], []) == front + [m] && IsMatchRule(x, m)
    ensures m == x.matchLine(Policy(x, f, policy))
    ensures front == Unique(x, Extras(x, norm, CustomLines(out), [], []) + Unique(x, BaseRules(x, f, c, keys)))
    ensures forall line :: line in front <==>
              line in BaseRules(x, f, c, keys) || exists i :: 0 <= i < |out| && out[i].line != "" && out[i].line == line
  {
    var base, extras := BaseRules(x, f, c, keys), Extras(x, norm, CustomLines(out), [], []);
    m := x.matchLine(Policy(x, f, policy));
    PolicyIsTrimmed(x, f, policy);
    assert MatchLineLaw(x, Policy(x, f, policy));
    BaseIsRuleLines(x, f, c, keys);
    ExtrasAre(x, norm, out);
    MergedLines(x, extras, base, m);
    front := Unique(x, extras + Unique(x, base));
  }

  /** What the three builders give the linter. */
  ghost predicate Built(x: Lexicon, f: Layout, c: Catalog, norm: string -> string, build: Compiled -> Provider, keys: seq<string>,
                        rules: seq<CustomRule>, policy: string, cfg: Config)
    requires Flat(c, x)
  {
    var out := CompiledRules(x, f, c, rules, keys);
    && cfg.providers == PutAll(CatalogProviders(Ordered(c, x, keys)), CustomProviders(build, out))
    && cfg.rules == Rules(x, f, c, norm, keys, policy, CustomLines(out), [], [])
  }

  lemma CustomLinesFit(x: Lexicon, f: Layout, c: Catalog, norm: string -> string, build: Compiled -> Provider, keys: seq<string>,
                       rules: seq<CustomRule>, policy: string, cfg: Config)
    requires TrimLaws(x) && RuleLaws(x) && Flat(c, x) && (forall r :: build(r).name == r.key)
    requires Built(x, f, c, norm, build, keys, rules, policy, cfg) && PlainRules(x, norm, CompiledRules(x, f, c, rules, keys))
    ensures var out := CompiledRules(x, f, c, rules, keys);
            forall i | 0 <= i < |out| && out[i].line != "" ::
              RuleLine(x, out[i].line) && IsRuleSet(x, out[i].line) && |x.split(out[i].line)| >= 3 && !BadProvider(x, cfg, out[i].line)
              && (BadTarget(x, cfg, out[i].line) <==> !Targeted(x, cfg, out[i]))
  {
    var out := CompiledRules(x, f, c, rules, keys);
    forall i | 0 <= i < |out| && out[i].line != ""
      ensures RuleLine(x, out[i].line) && IsRuleSet(x, out[i].line) && |x.split(out[i].line)| >= 3 && !BadProvider(x, cfg, out[i].line)
      ensures BadTarget(x, cfg, out[i].line) <==> !Targeted(x, cfg, out[i])
    {
      CustomLineClosesIff(x, f, c, build, rules, keys, cfg, i);
    }
  }

  lemma RulesFitConfig(x: Lexicon, f: Layout, c: Catalog, norm: string -> string, build: Compiled -> Provider, keys: seq<string>,
                       rules: seq<CustomRule>, policy: string, cfg: Config, regular: seq<string>, regions: seq<Resolved>, created: seq<string>)
    returns (front: seq<string>, m: string)
    requires Lawful(x) && WellFormed(x, f, c) && (forall r :: build(r).name == r.key)
    requires Built(x, f, c, norm, build, keys, rules, policy, cfg) && PlainRules(x, norm, CompiledRules(x, f, c, rules, keys))
    requires NamesPresent(x, f, Ordered(c, x, keys), regular, regions, created, GroupNames(cfg.groups))
    ensures RulesFit(x, cfg, front, m, CompiledRules(x, f, c, rules, keys))
  {
    var out, categories := CompiledRules(x, f, c, rules, keys), Ordered(c, x, keys);
    CustomLinesFit(x, f, c, norm, build, keys, rules, policy, cfg);
    front, m := RulesAre(x, f, c, norm, keys, policy, out);
    BaseLinesAreGood(x, f, c, keys);
    forall line | line in BaseRules(x, f, c, keys) ensures Closed(x, cfg, line) {
      GoodLineCloses(x, f, categories, regular, regions, created, cfg, CustomProviders(build, out), line);
    }
    FrontFits(x, cfg, BaseRules(x, f, c, keys), front, m, out);
  }

  lemma FrontFits(x: Lexicon, cfg: Config, base: seq<string>, front: seq<string>, m: string, out: seq<Compiled>)
    requires cfg.rules == front + [m] && IsMatchRule(x, m) && (forall line | line in base :: Closed(x, cfg, line))
    requires forall line :: line in front <==> line in base || exists i :: 0 <= i < |out| && out[i].line != "" && out[i].line == line
    requires forall i | 0 <= i < |out| && out[i].line != "" ::
               IsRuleSet(x, out[i].line) && |x.split(out[i].line)| >= 3 && !BadProvider(x, cfg, out[i].line)
               && (BadTarget(x, cfg, out[i].line) <==> !Targeted(x, cfg, out[i]))
    ensures RulesFit(x, cfg, front, m, out)
  {
    assert forall i | 0 <= i < |out| && out[i].line != "" :: out[i].line in front;
  }

  ghost predicate NodesResolve(x: Lexicon, cfg: Config, nodes: seq<Item>) {
    forall i | 0 <= i < |nodes| && !nodes[i].info :: Resolves(x, cfg, x.trim(nodes[i].name))
  }

  /** For any well-formed catalog, node list, enabled keys, plain custom rules, final policy and group options: the
      configuration passes the linter exactly when the inputs fit (`InputsFit`). */
  lemma GeneratorSatisfiesLinterIff(x: Lexicon, f: Layout, c: Catalog, norm: string -> string, build: Compiled -> Provider,
                                    nodes: seq<Item>, keys: seq<string>, rules: seq<CustomRule>, policy: string, opt: Options)
    requires Lawful(x) && WellFormed(x, f, c) && (forall r :: build(r).name == r.key)
    requires nodes != [] && forall i | 0 <= i < |nodes| :: x.trim(nodes[i].name) != ""
    requires PlainRules(x, norm, CompiledRules(x, f, c, rules, keys))
    ensures Accepted(x, Generated(x, f, c, norm, build, nodes, keys, rules, policy, opt)) <==> InputsFit(x, f, c, build, nodes, keys, rules, opt)
  {
    ConfigPassesIff(x, f, c, norm, build, nodes, keys, rules, policy, opt, Generated(x, f, c, norm, build, nodes, keys, rules, policy, opt));
  }

  lemma ConfigPassesIff(x: Lexicon, f: Layout, c: Catalog, norm: string -> string, build: Compiled -> Provider,
                        nodes: seq<Item>, keys: seq<string>, rules: seq<CustomRule>, policy: string, opt: Options, cfg: Config)
    requires Lawful(x) && WellFormed(x, f, c) && (forall r :: build(r).name == r.key)
    requires nodes != [] && forall i | 0 <= i < |nodes| :: x.trim(nodes[i].name) != ""
    requires PlainRules(x, norm, CompiledRules(x, f, c, rules, keys))
    requires cfg == Generated(x, f, c, norm, build, nodes, keys, rules, policy, opt)
    ensures Accepted(x, cfg) <==> InputsFit(x, f, c, build, nodes, keys, rules, opt)
  {
    PassesIff(x, f, c, norm, build, nodes, keys, rules, policy, opt);
    InputsFitIff(x, f, c, build, nodes, keys, rules, opt, cfg);
  }

  lemma InputsFitIff(x: Lexicon, f: Layout, c: Catalog, build: Compiled -> Provider,
                     nodes: seq<Item>, keys: seq<string>, rules: seq<CustomRule>, opt: Options, cfg: Config)
    requires Lawful(x) && WellFormed(x, f, c) && nodes != [] && forall i | 0 <= i < |nodes| :: x.trim(nodes[i].name) != ""
    requires cfg.proxies == NamesOf(nodes) && cfg.groups == GroupsFor(x, f, c, nodes, keys, rules, opt)
    requires cfg.providers == PutAll(CatalogProviders(Ordered(c, x, keys)), CustomProviders(build, CompiledRules(x, f, c, rules, keys)))
    ensures Distinct(cfg.proxies) && NodesResolve(x, cfg, nodes) && ExistingTargets(x, cfg, CompiledRules(x, f, c, rules, keys)) && ProvidersFit(x, cfg)
            <==> InputsFit(x, f, c, build, nodes, keys, rules, opt)
  {
    NodesKnownIff(x, f, c, nodes, keys, rules, opt, cfg);
    TargetsKnownIff(x, f, c, nodes, keys, rules, opt, cfg);
    ProvidersApartIff(x, f, c, build, rules, keys, cfg);
  }

  lemma NodesKnownIff(x: Lexicon, f: Layout, c: Catalog, nodes: seq<Item>, keys: seq<string>, rules: seq<CustomRule>, opt: Options, cfg: Config)
    requires Lawful(x) && WellFormed(x, f, c) && nodes != [] && forall i | 0 <= i < |nodes| :: x.trim(nodes[i].name) != ""
    requires cfg.proxies == NamesOf(nodes) && cfg.groups == GroupsFor(x, f, c, nodes, keys, rules, opt)
    ensures NodesResolve(x, cfg, nodes) <==> NodesKnown(x, f, c, nodes, keys, rules, opt)
  {
    forall n ensures n in GroupNames(cfg.groups) <==> GroupMade(x, f, c, nodes, keys, rules, opt, n) {
      GroupMadeIff(x, f, c, nodes, keys, rules, opt, n);
    }
  }

  lemma GroupMadeIff(x: Lexicon, f: Layout, c: Catalog, nodes: seq<Item>, keys: seq<string>, rules: seq<CustomRule>, opt: Options, n: string)
    requires Lawful(x) && WellFormed(x, f, c) && nodes != [] && forall i | 0 <= i < |nodes| :: x.trim(nodes[i].name) != ""
    ensures n in GroupNames(GroupsFor(x, f, c, nodes, keys, rules, opt)) <==> GroupMade(x, f, c, nodes, keys, rules, opt, n)
  {
    RegularNames(nodes);
    GroupNamesAreExact(x, f, c, nodes, keys, rules, opt, n);
  }

  lemma TargetsKnownIff(x: Lexicon, f: Layout, c: Catalog, nodes: seq<Item>, keys: seq<string>, rules: seq<CustomRule>, opt: Options, cfg: Config)
    requires Lawful(x) && WellFormed(x, f, c) && nodes != [] && forall i | 0 <= i < |nodes| :: x.trim(nodes[i].name) != ""
    requires cfg.groups == GroupsFor(x, f, c, nodes, keys, rules, opt)
    ensures ExistingTargets(x, cfg, CompiledRules(x, f, c, rules, keys)) <==> TargetsKnown(x, f, c, nodes, keys, rules, opt)
  {
    var out := CompiledRules(x, f, c, rules, keys);
    forall t ensures GivenIn(out, t) <==> Given(x, f.names, rules, t) {
      GivenAre(x, f.names, rules, Reserved(x, f.names, [], Ordered(c, x, keys), []), t);
    }
    forall n ensures n in GroupNames(cfg.groups) <==> GroupMade(x, f, c, nodes, keys, rules, opt, n) {
      GroupMadeIff(x, f, c, nodes, keys, rules, opt, n);
    }
    TargetsMatch(x, f, c, nodes, keys, rules, opt, cfg, out);
  }

  lemma TargetsMatch(x: Lexicon, f: Layout, c: Catalog, nodes: seq<Item>, keys: seq<string>, rules: seq<CustomRule>, opt: Options, cfg: Config,
                     out: seq<Compiled>)
    requires Flat(c, x) && forall t :: GivenIn(out, t) <==> Given(x, f.names, rules, t)
    requires forall n :: n in GroupNames(cfg.groups) <==> GroupMade(x, f, c, nodes, keys, rules, opt, n)
    ensures ExistingTargets(x, cfg, out) <==> TargetsKnown(x, f, c, nodes, keys, rules, opt)
  {
    if TargetsKnown(x, f, c, nodes, keys, rules, opt) {
      forall i | 0 <= i < |out| && out[i].line != "" && !out[i].create ensures Targeted(x, cfg, out[i]) {
        assert GivenIn(out, out[i].target);
      }
    }
    if ExistingTargets(x, cfg, out) {
      forall t | Given(x, f.names, rules, t) ensures x.builtin(t) || GroupMade(x, f, c, nodes, keys, rules, opt, t) {
        var i :| 0 <= i < |out| && out[i].line != "" && !out[i].create && out[i].target == t;
        assert Targeted(x, cfg, out[i]);
      }
    }
  }

  lemma ProvidersApartIff(x: Lexicon, f: Layout, c: Catalog, build: Compiled -> Provider, rules: seq<CustomRule>, keys: seq<string>, cfg: Config)
    requires Flat(c, x) && SelfLast(c) && KeysNormal(c, x) && OrdersCover(c) && ProvidersGood(x, c)
    requires cfg.providers == PutAll(CatalogProviders(Ordered(c, x, keys)), CustomProviders(build, CompiledRules(x, f, c, rules, keys)))
    ensures ProvidersFit(x, cfg) <==>
              ProvidersApart(x, CatalogProviders(Ordered(c, x, keys)), UserProviders(build, CompiledRules(x, f, c, rules, keys)))
  {
    var catalog, user := CatalogProviders(Ordered(c, x, keys)), UserProviders(build, CompiledRules(x, f, c, rules, keys));
    PutAllMerges(catalog, CustomProviders(build, CompiledRules(x, f, c, rules, keys)));
    CatalogProvidersMembers(Ordered(c, x, keys));
    forall n | n in catalog ensures Listed(c, catalog[n]) && catalog[n].name == n {
      var d :| d in Ordered(c, x, keys) && catalog[n] in d.providers;
      SameCategories(c, x, keys, d);
    }
    MergedFitIff(x, c, catalog, user, cfg);
  }

  lemma MergedFitIff(x: Lexicon, c: Catalog, catalog: map<string, Provider>, user: map<string, Provider>, cfg: Config)
    requires ProvidersGood(x, c) && cfg.providers == catalog + user
    requires forall n | n in catalog :: Listed(c, catalog[n]) && catalog[n].name == n
    ensures ProvidersFit(x, cfg) <==> ProvidersApart(x, catalog, user)
  {
    var all := cfg.providers;
    if ProvidersFit(x, cfg) {
      forall n | n in user ensures !BadShape(x, user[n]) {
        assert n in all && all[n] == user[n];
      }
      forall m, n | m in user && n in user && m != n ensures !SamePath(user[m], user[n]) {
        assert m in all && n in all;
      }
      forall m, n | m in user && n in catalog && n !in user ensures !SamePath(user[m], catalog[n]) {
        assert m in all && n in all && m != n;
      }
    }
    if ProvidersApart(x, catalog, user) {
      forall n | n in all ensures !BadShape(x, all[n]) {
      }
      forall m, n | m in all && n in all && m != n ensures !SamePath(all[m], all[n]) {
        assert SamePath(all[m], all[n]) == SamePath(all[n], all[m]);
      }
    }
  }

  /** The same, in terms of the configuration. */
  lemma PassesIff(x: Lexicon, f: Layout, c: Catalog, norm: string -> string, build: Compiled -> Provider,
                  nodes: seq<Item>, keys: seq<string>, rules: seq<CustomRule>, policy: string, opt: Options)
    requires Lawful(x) && WellFormed(x, f, c) && (forall r :: build(r).name == r.key)
    requires nodes != [] && forall i | 0 <= i < |nodes| :: x.trim(nodes[i].name) != ""
    requires PlainRules(x, norm, CompiledRules(x, f, c, rules, keys))
    ensures var cfg := Generated(x, f, c, norm, build, nodes, keys, rules, policy, opt);
            Accepted(x, cfg) <==> Distinct(cfg.proxies) && NodesResolve(x, cfg, nodes)
                                  && ExistingTargets(x, cfg, CompiledRules(x, f, c, rules, keys)) && ProvidersFit(x, cfg)
  {
    var cfg := Generated(x, f, c, norm, build, nodes, keys, rules, policy, opt);
    var front, m := PartsFit(x, f, c, norm, build, nodes, keys, rules, policy, opt, cfg);
    Combine(x, nodes, cfg, front, m, CompiledRules(x, f, c, rules, keys));
  }

  /** Groups are distinct and closed up to node names, and targets of created groups exist. */
  ghost predicate GroupsFit(x: Lexicon, nodes: seq<Item>, cfg: Config, out: seq<Compiled>) {
    && Distinct(GroupNames(cfg.groups))
    && (!Problem(x, cfg, MissingProxyReference) <==> RegularResolve(x, cfg, NamesOf(Regular(nodes))))
    && (forall i | 0 <= i < |out| && out[i].create :: Targeted(x, cfg, out[i]))
  }

  lemma PartsFit(x: Lexicon, f: Layout, c: Catalog, norm: string -> string, build: Compiled -> Provider,
                 nodes: seq<Item>, keys: seq<string>, rules: seq<CustomRule>, policy: string, opt: Options, cfg: Config)
    returns (front: seq<string>, m: string)
    requires Lawful(x) && WellFormed(x, f, c) && (forall r :: build(r).name == r.key)
    requires nodes != [] && forall i | 0 <= i < |nodes| :: x.trim(nodes[i].name) != ""
    requires PlainRules(x, norm, CompiledRules(x, f, c, rules, keys))
    requires cfg == Generated(x, f, c, norm, build, nodes, keys, rules, policy, opt)
    ensures GroupsFit(x, nodes, cfg, CompiledRules(x, f, c, rules, keys)) && RulesFit(x, cfg, front, m, CompiledRules(x, f, c, rules, keys))
  {
    var regular, regions, created := NamesOf(Regular(nodes)), ResolvedRegions(x, f, nodes, opt), CreatedFor(x, f, c, nodes, keys, rules, opt);
    RegularNames(nodes);
    var main := GroupsAreSound(x, f, c, nodes, keys, rules, opt);
    ReferencesCloseIff(x, f, Ordered(c, x, keys), regular, regions, created, cfg, main);
    var out := CompiledRules(x, f, c, rules, keys);
    forall i | 0 <= i < |out| && out[i].create ensures Targeted(x, cfg, out[i]) {
      CreatedTargetsExist(x, f, c, nodes, keys, rules, opt, regular, regions, GroupNames(cfg.groups), i);
    }
    ResolutionsAgree(x, f.names, c, rules, keys, []);
    front, m := RulesFitConfig(x, f, c, norm, build, keys, rules, policy, cfg, regular, regions, created);
  }

  lemma Combine(x: Lexicon, nodes: seq<Item>, cfg: Config, front: seq<string>, m: string, out: seq<Compiled>)
    requires GroupsFit(x, nodes, cfg, out) && RulesFit(x, cfg, front, m, out)
    ensures Accepted(x, cfg) <==> Distinct(cfg.proxies) && NodesResolve(x, cfg, nodes) && ExistingTargets(x, cfg, out) && ProvidersFit(x, cfg)
  {
    RulesCloseIff(x, cfg, front, m);
    NodesResolveIff(x, cfg, nodes);
    AcceptedWhen(x, cfg);
  }

  lemma NodesResolveIff(x: Lexicon, cfg: Config, nodes: seq<Item>)
    ensures RegularResolve(x, cfg, NamesOf(Regular(nodes)))
            <==> NodesResolve(x, cfg, nodes)
  {
    RegularNames(nodes);
    if NodesResolve(x, cfg, nodes) {
      forall n | n in NamesOf(Regular(nodes)) ensures Resolves(x, cfg, x.trim(n)) {
        var i :| 0 <= i < |nodes| && !nodes[i].info && nodes[i].name == n;
      }
    }
  }

  lemma AcceptedWhen(x: Lexicon, cfg: Config)
    requires !Problem(x, cfg, InvalidRuleSet) && !Problem(x, cfg, MissingProviderReference)
    requires !Problem(x, cfg, MissingMatch) && !Problem(x, cfg, MatchNotLast) && !Problem(x, cfg, DuplicateGroupName)
    ensures Accepted(x, cfg) <==> !Problem(x, cfg, DuplicateProxyName) && !Problem(x, cfg, MissingProxyReference) && !Problem(x, cfg, MissingRuleTarget)
                                  && !Problem(x, cfg, DuplicateProviderPath) && !Problem(x, cfg, InvalidMrsBehavior)
  {
    assert Critical(DuplicateProxyName) && Critical(MissingProxyReference) && Critical(MissingRuleTarget);
    assert Critical(DuplicateProviderPath) && Critical(InvalidMrsBehavior);
  }

  // ---- Without custom rules ----

  lemma ProvidersAreSound(x: Lexicon, f: Layout, c: Catalog, keys: seq<string>, cfg: Config)
    requires Flat(c, x) && SelfLast(c) && KeysNormal(c, x) && OrdersCover(c) && ProvidersGood(x, c)
    requires cfg.providers == CatalogProviders(Ordered(c, x, keys))
    ensures ProvidersFit(x, cfg)
  {
    var categories := Ordered(c, x, keys);
    CatalogProvidersMembers(categories);
    forall n | n in cfg.providers ensures Listed(c, cfg.providers[n]) && cfg.providers[n].name == n {
      var d :| d in categories && cfg.providers[n] in d.providers;
      SameCategories(c, x, keys, d);
    }
  }

  lemma {:induction false} NoneCompiled(x: Lexicon, f: Names, rules: seq<CustomRule>, reserved: set<string>)
    requires forall i | 0 <= i < |rules| :: !Counts(x, rules[i])
    ensures Resolve(x, f, rules, reserved) == Resolution([], reserved)
  {
    if rules != [] {
      NoneCompiled(x, f, rules[..|rules| - 1], reserved);
    }
  }

  /** When no custom rule is enabled only node names matter; distinct names without surrounding space are always
      accepted, also when every node only carries information and no regular node is left. */
  lemma TrimmedNamesAreAccepted(x: Lexicon, f: Layout, c: Catalog, norm: string -> string, build: Compiled -> Provider,
                                nodes: seq<Item>, keys: seq<string>, rules: seq<CustomRule>, policy: string, opt: Options)
    requires Lawful(x) && WellFormed(x, f, c) && (forall r :: build(r).name == r.key) && nodes != [] && Distinct(NamesOf(nodes))
    requires forall i | 0 <= i < |nodes| :: nodes[i].name != "" && x.trim(nodes[i].name) == nodes[i].name
    requires forall i | 0 <= i < |rules| :: !Counts(x, rules[i])
    ensures Accepted(x, Generated(x, f, c, norm, build, nodes, keys, rules, policy, opt))
  {
    WithoutCustom(x, f, c, norm, build, nodes, keys, rules, policy, opt);
    PassesIff(x, f, c, norm, build, nodes, keys, rules, policy, opt);
  }

  lemma WithoutCustom(x: Lexicon, f: Layout, c: Catalog, norm: string -> string, build: Compiled -> Provider,
                      nodes: seq<Item>, keys: seq<string>, rules: seq<CustomRule>, policy: string, opt: Options)
    requires WellFormed(x, f, c) && forall i | 0 <= i < |nodes| :: x.trim(nodes[i].name) == nodes[i].name
    requires forall i | 0 <= i < |rules| :: !Counts(x, rules[i])
    ensures PlainRules(x, norm, CompiledRules(x, f, c, rules, keys))
    ensures var cfg := Generated(x, f, c, norm, build, nodes, keys, rules, policy, opt);
            cfg.proxies == NamesOf(nodes) && NodesResolve(x, cfg, nodes) && ExistingTargets(x, cfg, CompiledRules(x, f, c, rules, keys)) && ProvidersFit(x, cfg)
  {
    var cfg := Generated(x, f, c, norm, build, nodes, keys, rules, policy, opt);
    NoneCompiled(x, f.names, rules, Reserved(x, f.names, [], Ordered(c, x, keys), []));
    PlainIsAccepted(x, f, c, keys, nodes, cfg, CompiledRules(x, f, c, rules, keys));
  }

  lemma PlainIsAccepted(x: Lexicon, f: Layout, c: Catalog, keys: seq<string>, nodes: seq<Item>, cfg: Config, out: seq<Compiled>)
    requires Flat(c, x) && SelfLast(c) && KeysNormal(c, x) && OrdersCover(c) && ProvidersGood(x, c)
    requires cfg.providers == CatalogProviders(Ordered(c, x, keys)) && out == []
    requires cfg.proxies == NamesOf(nodes) && forall i | 0 <= i < |nodes| :: x.trim(nodes[i].name) == nodes[i].name
    ensures NodesResolve(x, cfg, nodes) && ExistingTargets(x, cfg, out) && ProvidersFit(x, cfg)
  {
    NamesResolve(x, cfg, nodes);
    ProvidersAreSound(x, f, c, keys, cfg);
  }

  lemma NamesResolve(x: Lexicon, cfg: Config, nodes: seq<Item>)
    requires cfg.proxies == NamesOf(nodes) && forall i | 0 <= i < |nodes| :: x.trim(nodes[i].name) == nodes[i].name
    ensures NodesResolve(x, cfg, nodes)
  {
    forall i | 0 <= i < |nodes| ensures Resolves(x, cfg, x.trim(nodes[i].name)) {
      assert NamesOf(nodes)[i] == nodes[i].name;
    }
  }

  // ---- A name with outer space ----

  /** A single node called " A" is rejected, unless some group is called "A"; `GoTrimsNames` says that the program's own
      text functions are such as this assumes. */
  lemma OuterSpaceIsRejected(x: Lexicon, f: Layout, c: Catalog, norm: string -> string, build: Compiled -> Provider,
                             keys: seq<string>, policy: string, opt: Options)
    requires Lawful(x) && WellFormed(x, f, c) && (forall r :: build(r).name == r.key)
    requires x.trim(" A") == "A" && !x.builtin("A") && !GroupMade(x, f, c, [Item(" A", false, "")], keys, [], opt, "A")
    ensures !Accepted(x, Generated(x, f, c, norm, build, [Item(" A", false, "")], keys, [], policy, opt))
  {
    LoneNodeIsRejected(x, f, c, norm, build, " A", "A", keys, policy, opt);
  }

  /** The same for any name that trimming changes. */
  lemma LoneNodeIsRejected(x: Lexicon, f: Layout, c: Catalog, norm: string -> string, build: Compiled -> Provider, name: string, trimmed: string,
                           keys: seq<string>, policy: string, opt: Options)
    requires Lawful(x) && WellFormed(x, f, c) && (forall r :: build(r).name == r.key)
    requires trimmed == x.trim(name) && trimmed != "" && trimmed != name && !x.builtin(trimmed)
    requires !GroupMade(x, f, c, [Item(name, false, "")], keys, [], opt, trimmed)
    ensures !Accepted(x, Generated(x, f, c, norm, build, [Item(name, false, "")], keys, [], policy, opt))
  {
    var nodes := [Item(name, false, "")];
    assert NamesOf(nodes) == [name] && !nodes[0].info && x.trim(nodes[0].name) == trimmed;
    assert CompiledRules(x, f, c, [], keys) == [];
    GeneratorSatisfiesLinterIff(x, f, c, norm, build, nodes, keys, [], policy, opt);
  }

  // ---- Without nodes ----

  /** A target that exists although there are no nodes. */
  predicate AlwaysThere(x: Lexicon, f: Layout, target: string) {
    x.builtin(target) || target == f.names.nodeSelect
  }

  /** A rule of an enabled category, or the one for domestic traffic. */
  ghost predicate Wanted(x: Lexicon, f: Layout, c: Catalog, keys: seq<string>, s: Spec)
    requires Flat(c, x)
  {
    (exists d :: d in Ordered(c, x, keys) && s in d.rules)
    || ("domestic" in NormalizeKeys(c, x, keys) && s == Spec(f.cnProvider, f.domesticTarget, false))
  }

  /** No wanted rule is for the group of its category. */
  ghost predicate NeedsNoGroups(x: Lexicon, f: Layout, c: Catalog, keys: seq<string>)
    requires Flat(c, x)
  {
    forall s: Spec | Wanted(x, f, c, keys, s) :: AlwaysThere(x, f, s.target)
  }

  lemma {:induction false} RulesHaveLines(x: Lexicon, categories: seq<Category>)
    ensures forall d, s | d in categories && s in d.rules :: x.ruleSet(s) in NormalLines(x, categories) + TrailingLines(x, categories)
  {
    if categories != [] {
      var init, last := categories[..|categories| - 1], categories[|categories| - 1];
      RulesHaveLines(x, init);
      forall d, s | d in categories && s in d.rules ensures x.ruleSet(s) in NormalLines(x, categories) + TrailingLines(x, categories) {
        if d !in init {
          var i :| 0 <= i < |last.rules| && last.rules[i] == s;
          assert Lines(x, last.rules)[i] == x.ruleSet(s);
        }
      }
    }
  }

  /** The base rules are exactly the lines of the wanted rules. */
  lemma BaseLinesAre(x: Lexicon, f: Layout, c: Catalog, keys: seq<string>, line: string)
    requires Flat(c, x) && SelfLast(c) && KeysNormal(c, x) && OrdersCover(c)
    ensures line in BaseRules(x, f, c, keys) <==> exists s: Spec :: Wanted(x, f, c, keys, s) && line == x.ruleSet(s)
  {
    var enabled := NormalizeKeys(c, x, keys);
    var categories := OrderedForRules(c, x, enabled);
    NormalizeIsIdempotent(c, x, keys);
    forall d ensures d in Ordered(c, x, keys) <==> d in categories {
      SameCategories(c, x, enabled, d);
    }
    RulesHaveLines(x, categories);
    LinesComeFromRules(x, categories);
    if line in DomesticLines(x, f, enabled) {
      assert Wanted(x, f, c, keys, Spec(f.cnProvider, f.domesticTarget, false));
    } else if line in BaseRules(x, f, c, keys) {
      var d, s :| d in categories && s in d.rules && line == x.ruleSet(s);
      assert Wanted(x, f, c, keys, s);
    }
  }

  lemma WantedIsClean(x: Lexicon, f: Layout, c: Catalog, keys: seq<string>, s: Spec)
    requires WellFormed(x, f, c) && Wanted(x, f, c, keys, s)
    ensures x.clean(s.provider) && x.clean(s.target)
  {
    if d :| d in Ordered(c, x, keys) && s in d.rules {
      SameCategories(c, x, keys, d);
      var k :| k in c.table && c.table[k] == d;
      assert GoodSpec(x, f, c.table[k], s);
    } else {
      DomesticIsGood(x, f, c, keys);
      NormalizeSettles(c, x, keys);
    }
  }

  lemma BaseClosesIff(x: Lexicon, f: Layout, c: Catalog, keys: seq<string>, cfg: Config)
    requires TrimLaws(x) && RuleLaws(x) && WellFormed(x, f, c) && GroupNames(cfg.groups) == [f.names.nodeSelect]
    ensures (forall line | line in BaseRules(x, f, c, keys) :: !BadTarget(x, cfg, line)) <==> NeedsNoGroups(x, f, c, keys)
  {
    forall s: Spec | Wanted(x, f, c, keys, s)
      ensures x.ruleSet(s) in BaseRules(x, f, c, keys) && (BadTarget(x, cfg, x.ruleSet(s)) <==> !AlwaysThere(x, f, s.target))
    {
      WantedIsClean(x, f, c, keys, s);
      LineClosesIff(x, cfg, s);
      BaseLinesAre(x, f, c, keys, x.ruleSet(s));
    }
    forall line | line in BaseRules(x, f, c, keys) ensures exists s: Spec :: Wanted(x, f, c, keys, s) && line == x.ruleSet(s) {
      BaseLinesAre(x, f, c, keys, line);
    }
  }

  /** The rules of a configuration without nodes have their providers, and targets exactly as far as they exist. */
  lemma RulesWithoutNodes(x: Lexicon, f: Layout, c: Catalog, norm: string -> string, build: Compiled -> Provider, keys: seq<string>,
                          rules: seq<CustomRule>, policy: string, cfg: Config, out: seq<Compiled>)
    returns (front: seq<string>, m: string)
    requires Lawful(x) && WellFormed(x, f, c) && (forall r :: build(r).name == r.key) && out == CompiledRules(x, f, c, rules, keys)
    requires Built(x, f, c, norm, build, keys, rules, policy, cfg) && PlainRules(x, norm, out)
    ensures forall i | 0 <= i < |out| && out[i].line != "" :: BadTarget(x, cfg, out[i].line) <==> !Targeted(x, cfg, out[i])
    ensures cfg.rules == front + [m] && IsMatchRule(x, m)
    ensures forall line | line in front :: IsRuleSet(x, line) && |x.split(line)| >= 3 && !BadProvider(x, cfg, line)
    ensures forall line :: line in front <==> line in BaseRules(x, f, c, keys) || exists i :: 0 <= i < |out| && out[i].line != "" && out[i].line == line
  {
    CustomLinesFit(x, f, c, norm, build, keys, rules, policy, cfg);
    front, m := RulesAre(x, f, c, norm, keys, policy, out);
    BaseLinesAreGood(x, f, c, keys);
    forall line | line in BaseRules(x, f, c, keys) ensures IsRuleSet(x, line) && |x.split(line)| >= 3 && !BadProvider(x, cfg, line) {
      GoodLineHasProvider(x, f, Ordered(c, x, keys), cfg, CustomProviders(build, out), line);
    }
  }

  /** When there are no nodes, only the node selection is built, so the configuration passes exactly when every rule
      of the enabled categories and every custom rule points at it or at a built-in target, and the providers of
      custom rules do not clash. */
  lemma WithoutNodesIff(x: Lexicon, f: Layout, c: Catalog, norm: string -> string, build: Compiled -> Provider,
                        keys: seq<string>, rules: seq<CustomRule>, policy: string, opt: Options)
    requires Lawful(x) && WellFormed(x, f, c) && (forall r :: build(r).name == r.key)
    requires PlainRules(x, norm, CompiledRules(x, f, c, rules, keys))
    ensures var out := CompiledRules(x, f, c, rules, keys);
            Accepted(x, Generated(x, f, c, norm, build, [], keys, rules, policy, opt)) <==>
              && NeedsNoGroups(x, f, c, keys) && ProvidersApart(x, CatalogProviders(Ordered(c, x, keys)), UserProviders(build, out))
              && forall i | 0 <= i < |out| && out[i].line != "" :: AlwaysThere(x, f, out[i].target)
  {
    EmptyPassesIff(x, f, c, norm, build, keys, rules, policy, opt, Generated(x, f, c, norm, build, [], keys, rules, policy, opt));
  }

  lemma EmptyPassesIff(x: Lexicon, f: Layout, c: Catalog, norm: string -> string, build: Compiled -> Provider,
                       keys: seq<string>, rules: seq<CustomRule>, policy: string, opt: Options, cfg: Config)
    requires Lawful(x) && WellFormed(x, f, c) && (forall r :: build(r).name == r.key)
    requires PlainRules(x, norm, CompiledRules(x, f, c, rules, keys))
    requires cfg == Generated(x, f, c, norm, build, [], keys, rules, policy, opt)
    ensures var out := CompiledRules(x, f, c, rules, keys);
            Accepted(x, cfg) <==>
              && NeedsNoGroups(x, f, c, keys) && ProvidersApart(x, CatalogProviders(Ordered(c, x, keys)), UserProviders(build, out))
              && forall i | 0 <= i < |out| && out[i].line != "" :: AlwaysThere(x, f, out[i].target)
  {
    ProvidersApartIff(x, f, c, build, rules, keys, cfg);
    GeneratedPassesIff(x, f, c, norm, build, keys, rules, policy, opt, cfg);
  }

  lemma GeneratedPassesIff(x: Lexicon, f: Layout, c: Catalog, norm: string -> string, build: Compiled -> Provider,
                           keys: seq<string>, rules: seq<CustomRule>, policy: string, opt: Options, cfg: Config)
    requires Lawful(x) && WellFormed(x, f, c) && (forall r :: build(r).name == r.key)
    requires PlainRules(x, norm, CompiledRules(x, f, c, rules, keys))
    requires cfg == Generated(x, f, c, norm, build, [], keys, rules, policy, opt)
    ensures var out := CompiledRules(x, f, c, rules, keys);
            Accepted(x, cfg) <==> NeedsNoGroups(x, f, c, keys) && ProvidersFit(x, cfg)
                                  && forall i | 0 <= i < |out| && out[i].line != "" :: AlwaysThere(x, f, out[i].target)
  {
    ResolutionsAgree(x, f.names, c, rules, keys, []);
    PassesWithoutNodesIff(x, f, c, norm, build, keys, rules, policy, cfg, CompiledRules(x, f, c, rules, keys));
  }

  lemma PassesWithoutNodesIff(x: Lexicon, f: Layout, c: Catalog, norm: string -> string, build: Compiled -> Provider, keys: seq<string>,
                              rules: seq<CustomRule>, policy: string, cfg: Config, out: seq<Compiled>)
    requires Lawful(x) && WellFormed(x, f, c) && (forall r :: build(r).name == r.key) && out == CompiledRules(x, f, c, rules, keys)
    requires Built(x, f, c, norm, build, keys, rules, policy, cfg) && PlainRules(x, norm, out)
    requires cfg.proxies == [] && cfg.groups == [Group(f.names.nodeSelect, "select", [x.direct])]
    ensures Accepted(x, cfg) <==> NeedsNoGroups(x, f, c, keys) && ProvidersFit(x, cfg)
                                  && forall i | 0 <= i < |out| && out[i].line != "" :: AlwaysThere(x, f, out[i].target)
  {
    assert GroupNames(cfg.groups) == [f.names.nodeSelect];
    var front, m := RulesWithoutNodes(x, f, c, norm, build, keys, rules, policy, cfg, out);
    BaseClosesIff(x, f, c, keys, cfg);
    assert Resolves(x, cfg, x.direct);
    TargetsIff(x, f, c, keys, cfg, out, front);
    OneGroupPasses(x, cfg, f.names.nodeSelect, front, m);
  }

  lemma TargetsIff(x: Lexicon, f: Layout, c: Catalog, keys: seq<string>, cfg: Config, out: seq<Compiled>, front: seq<string>)
    requires Flat(c, x) && GroupNames(cfg.groups) == [f.names.nodeSelect]
    requires forall line :: line in front <==> line in BaseRules(x, f, c, keys) || exists i :: 0 <= i < |out| && out[i].line != "" && out[i].line == line
    requires (forall line | line in BaseRules(x, f, c, keys) :: !BadTarget(x, cfg, line)) <==> NeedsNoGroups(x, f, c, keys)
    requires forall i | 0 <= i < |out| && out[i].line != "" :: BadTarget(x, cfg, out[i].line) <==> !Targeted(x, cfg, out[i])
    ensures (forall line | line in front :: !BadTarget(x, cfg, line))
            <==> NeedsNoGroups(x, f, c, keys) && forall i | 0 <= i < |out| && out[i].line != "" :: AlwaysThere(x, f, out[i].target)
  {
    forall i | 0 <= i < |out| && out[i].line != "" ensures out[i].line in front && (Targeted(x, cfg, out[i]) <==> AlwaysThere(x, f, out[i].target)) {
    }
  }

  lemma OneGroupPasses(x: Lexicon, cfg: Config, name: string, front: seq<string>, m: string)
    requires cfg.rules == front + [m] && IsMatchRule(x, m) && cfg.proxies == []
    requires cfg.groups == [Group(name, "select", [x.direct])] && Resolves(x, cfg, x.direct) && GroupNames(cfg.groups) == [name]
    requires forall line | line in front :: IsRuleSet(x, line) && |x.split(line)| >= 3 && !BadProvider(x, cfg, line)
    ensures Accepted(x, cfg) <==> ProvidersFit(x, cfg) && forall line | line in front :: !BadTarget(x, cfg, line)
  {
    RulesCloseIff(x, cfg, front, m);
    assert !Problem(x, cfg, MissingProxyReference);
    AcceptedWhen(x, cfg);
  }

  // ---- Rendering ----

  method CollectCustom(build: Compiled -> Provider, out: seq<Compiled>) returns (lines: seq<string>, providers: seq<Provider>)
    ensures lines == CustomLines(out) && providers == CustomProviders(build, out)
  {
    lines, providers := [], [];
    for i := 0 to |out|
      invariant lines == CustomLines(out[..i]) && providers == CustomProviders(build, out[..i])
    {
      assert out[..i + 1][..i] == out[..i];
      if out[i].line == "" {
        continue;
      }
      lines, providers := lines + [out[i].line], providers + [build(out[i])];
    }
    assert out[..|out|] == out;
  }

  /** Building the groups succeeds: no two groups are ever named alike. */
  lemma GroupsDoNotFail(x: Lexicon, f: Layout, c: Catalog, nodes: seq<Item>, keys: seq<string>, rules: seq<CustomRule>, opt: Options)
    requires Lawful(x) && WellFormed(x, f, c)
    requires nodes != [] && forall i | 0 <= i < |nodes| :: x.trim(nodes[i].name) != ""
    ensures !Groups(x, f, c, nodes, keys, rules, opt, [], []).failed
  {
    RegularNames(nodes);
    var _ := GroupsAreSound(x, f, c, nodes, keys, rules, opt);
  }

  method Lint(x: Lexicon, cfg: Config) returns (ok: bool)
    ensures ok <==> Accepted(x, cfg)
  {
    var warnings := ValidateMihomoConfig(x, cfg);
    ok := FailOnCriticalWarnings(warnings);
  }

  /** Well-formed tables exist: one category with one provider and one rule for its own group. */
  lemma SmallCatalogIsWellFormed(x: Lexicon, f: Names, key: string, group: string, provider: Provider)
    requires TrimLaws(x) && x.lower(key) == key && key != "" && key != "domestic" && !AutoKind(x.lower("select"))
    requires Distinct(FixedNames(f)) && (forall n | n in FixedNames(f) :: x.clean(n))
    requires x.clean(group) && !PolicyTarget(x, f, group) && x.clean(provider.name) && !BadShape(x, provider)
    ensures var c := Catalog(map[key := Category(key, group, [provider], [Spec(provider.name, group, false)])], [key], [key], [], {}, map[], map[]);
            WellFormed(x, Layout(f, [], "", "", "", ""), c)
  {
    var category := Category(key, group, [provider], [Spec(provider.name, group, false)]);
    var c := Catalog(map[key := category], [key], [key], [], {}, map[], map[]);
    var layout := Layout(f, [], "", "", "", "");
    assert provider in category.providers && HasProvider(category, provider.name);
    assert MakesGroup(x, layout, category);
    assert Flatten(layout.regions) == [];
    assert forall p :: Listed(c, p) ==> p == provider;
  }
}
