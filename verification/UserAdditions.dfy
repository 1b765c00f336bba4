/** What users add to a generated configuration: proxy groups, rules and rule providers of their own. Onto a configuration
    that passes the linter they can be added exactly when they fit it. */
module UserAdditions {
  import opened Common
  import opened RuleText
  import opened RuleCatalog
  import opened ConfigLint
  import opened CustomRules
  import opened ProxyGroups
  import opened RuleBuilder
  import opened PlannedGroups
  import opened GeneratedConfig
  import opened GeneratorLint

  /** `names` are those of all custom groups, `groups` the enabled ones; `providerRules` comes from enabled providers. */
  datatype Additions = Additions(groups: seq<Group>, names: seq<string>, rules: seq<string>, providers: seq<Provider>, providerRules: seq<string>)

  // ---- The configuration with additions ----

  function CompiledWith(x: Lexicon, f: Layout, c: Catalog, rules: seq<CustomRule>, keys: seq<string>, names: seq<string>): seq<Compiled>
    requires Flat(c, x)
  {
    Resolve(x, f.names, rules, Reserved(x, f.names, [], Ordered(c, x, keys), names)).out
  }

  function GroupsWith(x: Lexicon, f: Layout, c: Catalog, nodes: seq<Item>, keys: seq<string>, rules: seq<CustomRule>, opt: Options, u: Additions): Sum
    requires Flat(c, x)
  {
    if nodes == [] then Sum([Group(f.names.nodeSelect, "select", [x.direct])], false)
    else Groups(x, f, c, nodes, keys, rules, opt, u.groups, u.names)
  }

  function Extended(x: Lexicon, f: Layout, c: Catalog, norm: string -> string, build: Compiled -> Provider,
                    nodes: seq<Item>, keys: seq<string>, rules: seq<CustomRule>, policy: string, opt: Options, u: Additions): Config
    requires Flat(c, x)
  {
    Config(NamesOf(nodes), GroupsWith(x, f, c, nodes, keys, rules, opt, u).groups,
           PutAll(CatalogProviders(Ordered(c, x, keys)), u.providers + CustomProviders(build, CompiledWith(x, f, c, rules, keys, u.names))),
           Rules(x, f, c, norm, keys, policy, CustomLines(CompiledWith(x, f, c, rules, NormalizeKeys(c, x, keys), u.names)), u.rules, u.providerRules))
  }

  // ---- What is added ----

  /** The user's groups that have members, automatic ones with real nodes only. */
  function AddedGroups(x: Lexicon, nodes: seq<Item>, u: Additions): seq<Group> {
    SanitizedAll(x, Live(x, u.groups), RealNames(x, NamesOf(Regular(nodes))))
  }

  function AddedLines(x: Lexicon, norm: string -> string, u: Additions): seq<string> {
    NormalizeRules(x, norm, u.rules) + NormalizeRules(x, norm, u.providerRules)
  }

  /** The user's providers that no custom rule's replaces. */
  function AddedProviders(u: Additions, custom: map<string, Provider>): map<string, Provider> {
    PutAll(map[], u.providers) - custom.Keys
  }

  /** A line whose provider and target are in the configuration or among the additions. */
  ghost predicate LineFits(x: Lexicon, cfg: Config, groups: seq<Group>, providers: map<string, Provider>, line: string) {
    var parts := x.split(line);
    && (IsRuleSet(x, line) ==> |parts| >= 3 && (x.trim(parts[1]) in cfg.providers || x.trim(parts[1]) in providers))
    && (|parts| >= 3 && !IsMatchRule(x, line) ==>
          var t := x.trim(parts[2]); x.builtin(t) || t in GroupNames(cfg.groups) || t in GroupNames(groups))
  }

  /** Additions that fit a configuration: groups with new names whose members are there, lines whose parts are there, and
      providers with allowed shapes and files of their own. */
  ghost predicate AdditionsFit(x: Lexicon, cfg: Config, groups: seq<Group>, lines: seq<string>, providers: map<string, Provider>) {
    && Distinct(GroupNames(cfg.groups) + GroupNames(groups))
    && (forall g, ref | g in groups && ref in g.proxies :: Resolves(x, cfg, ref) || ref in GroupNames(groups))
    && (forall line | line in lines :: LineFits(x, cfg, groups, providers, line))
    && ProvidersApart(x, cfg.providers, providers)
  }

  // ---- For any configuration that passes ----

  /** `ext` is `cfg` with these additions, and its last rule is still the same. */
  ghost predicate Extends(cfg: Config, ext: Config, groups: seq<Group>, lines: seq<string>, providers: map<string, Provider>) {
    && ext.proxies == cfg.proxies && ext.groups == cfg.groups + groups && ext.providers == cfg.providers + providers
    && LinesExtend(cfg.rules, ext.rules, lines)
  }

  ghost predicate LinesExtend(before: seq<string>, after: seq<string>, lines: seq<string>) {
    && before != [] && after != [] && before[|before| - 1] == after[|after| - 1]
    && (forall line :: line in after <==> line in before || line in lines)
  }

  lemma NamesExtend(cfg: Config, ext: Config, groups: seq<Group>)
    requires ext.groups == cfg.groups + groups
    ensures GroupNames(ext.groups) == GroupNames(cfg.groups) + GroupNames(groups)
  {
    GroupNamesConcat(cfg.groups, groups);
  }

  lemma ReferencesExtend(x: Lexicon, cfg: Config, ext: Config, groups: seq<Group>)
    requires ext.proxies == cfg.proxies && ext.groups == cfg.groups + groups && !Problem(x, cfg, MissingProxyReference)
    ensures !Problem(x, ext, MissingProxyReference) <==>
              forall g, ref | g in groups && ref in g.proxies :: Resolves(x, cfg, ref) || ref in GroupNames(groups)
  {
    NamesExtend(cfg, ext, groups);
    forall ref ensures Resolves(x, ext, ref) <==> Resolves(x, cfg, ref) || ref in GroupNames(groups) {
    }
    if forall g, ref | g in groups && ref in g.proxies :: Resolves(x, cfg, ref) || ref in GroupNames(groups) {
      forall g | g in ext.groups ensures !Dangles(x, ext, g.proxies) {
        if g in cfg.groups {
          assert !Dangles(x, cfg, g.proxies);
        }
      }
    } else {
      var g, ref :| g in groups && ref in g.proxies && !Resolves(x, ext, ref);
      assert g in ext.groups && Dangles(x, ext, g.proxies);
    }
  }

  ghost predicate BadLine(x: Lexicon, cfg: Config, line: string) {
    (IsRuleSet(x, line) && |x.split(line)| < 3) || BadProvider(x, cfg, line) || BadTarget(x, cfg, line)
  }

  lemma LinesAreBad(x: Lexicon, cfg: Config)
    ensures Problem(x, cfg, InvalidRuleSet) || Problem(x, cfg, MissingProviderReference) || Problem(x, cfg, MissingRuleTarget)
            <==> exists line :: line in cfg.rules && BadLine(x, cfg, line)
  {
  }

  lemma LineExtends(x: Lexicon, cfg: Config, ext: Config, groups: seq<Group>, providers: map<string, Provider>, line: string)
    requires ext.groups == cfg.groups + groups && ext.providers == cfg.providers + providers
    ensures BadLine(x, ext, line) ==> BadLine(x, cfg, line)
    ensures !BadLine(x, ext, line) <==> LineFits(x, cfg, groups, providers, line)
  {
    NamesExtend(cfg, ext, groups);
  }

  lemma RulesExtend(x: Lexicon, cfg: Config, ext: Config, groups: seq<Group>, lines: seq<string>, providers: map<string, Provider>)
    requires Extends(cfg, ext, groups, lines, providers) && forall line | line in cfg.rules :: !BadLine(x, cfg, line)
    ensures (forall line | line in ext.rules :: !BadLine(x, ext, line)) <==> forall line | line in lines :: LineFits(x, cfg, groups, providers, line)
  {
    forall line ensures (BadLine(x, ext, line) ==> BadLine(x, cfg, line)) && (!BadLine(x, ext, line) <==> LineFits(x, cfg, groups, providers, line)) {
      LineExtends(x, cfg, ext, groups, providers, line);
    }
  }

  lemma ProvidersExtend(x: Lexicon, cfg: Config, ext: Config, providers: map<string, Provider>)
    requires ext.providers == cfg.providers + providers && ProvidersFit(x, cfg)
    ensures ProvidersFit(x, ext) <==> ProvidersApart(x, cfg.providers, providers)
  {
    var all := ext.providers;
    if ProvidersFit(x, ext) {
      forall n | n in providers ensures !BadShape(x, providers[n]) {
        assert n in all && all[n] == providers[n];
      }
      forall m, n | m in providers && n in providers && m != n ensures !SamePath(providers[m], providers[n]) {
        assert m in all && n in all;
      }
      forall m, n | m in providers && n in cfg.providers && n !in providers ensures !SamePath(providers[m], cfg.providers[n]) {
        assert m in all && n in all && m != n;
      }
    }
    if ProvidersApart(x, cfg.providers, providers) {
      forall n | n in all ensures !BadShape(x, all[n]) {
      }
      forall m, n | m in all && n in all && m != n ensures !SamePath(all[m], all[n]) {
        assert SamePath(all[m], all[n]) == SamePath(all[n], all[m]);
      }
    }
  }

  lemma AcceptedMeans(x: Lexicon, cfg: Config)
    ensures Accepted(x, cfg) <==>
              && Distinct(cfg.proxies) && Distinct(GroupNames(cfg.groups)) && ProvidersFit(x, cfg) && !Problem(x, cfg, MissingProxyReference)
              && (forall line | line in cfg.rules :: !BadLine(x, cfg, line)) && cfg.rules != [] && IsMatchRule(x, cfg.rules[|cfg.rules| - 1])
  {
    LinesAreBad(x, cfg);
    assert Critical(DuplicateProxyName) && Critical(DuplicateGroupName) && Critical(DuplicateProviderPath) && Critical(InvalidMrsBehavior);
    assert Critical(MissingProxyReference) && Critical(InvalidRuleSet) && Critical(MissingProviderReference) && Critical(MissingRuleTarget);
    assert Critical(MissingMatch) && Critical(MatchNotLast);
  }

  /** Additions to a configuration that passes: the result passes exactly when they fit. */
  lemma ExtensionPassesIff(x: Lexicon, cfg: Config, ext: Config, groups: seq<Group>, lines: seq<string>, providers: map<string, Provider>)
    requires Accepted(x, cfg) && Extends(cfg, ext, groups, lines, providers)
    ensures Accepted(x, ext) <==> AdditionsFit(x, cfg, groups, lines, providers)
  {
    AcceptedMeans(x, cfg);
    AcceptedMeans(x, ext);
    NamesExtend(cfg, ext, groups);
    ReferencesExtend(x, cfg, ext, groups);
    RulesExtend(x, cfg, ext, groups, lines, providers);
    ProvidersExtend(x, cfg, ext, providers);
  }

  // ---- What the builders make of additions ----

  /** No custom group is called like a group that a custom rule creates, in either resolution. */
  ghost predicate NamesClear(x: Lexicon, f: Layout, c: Catalog, nodes: seq<Item>, keys: seq<string>, rules: seq<CustomRule>, opt: Options, names: seq<string>)
    requires Flat(c, x)
  {
    forall n | n in names :: n !in Created(CompiledRules(x, f, c, rules, keys)) && n !in CreatedFor(x, f, c, nodes, keys, rules, opt)
  }

  /** Then the names of custom groups, which are reserved, change no resolution. */
  lemma SameResolution(x: Lexicon, f: Names, rules: seq<CustomRule>, regions: seq<string>, categories: seq<Category>, names: seq<string>)
    requires forall n | n in names :: n !in Created(Resolve(x, f, rules, Reserved(x, f, regions, categories, [])).out)
    ensures Resolve(x, f, rules, Reserved(x, f, regions, categories, names)).out == Resolve(x, f, rules, Reserved(x, f, regions, categories, [])).out
  {
    var plain, more := Reserved(x, f, regions, categories, []), set n | n in names && x.trim(n) != "";
    assert Reserved(x, f, regions, categories, names) == plain + more;
    MoreReserved(x, f, rules, plain, more);
  }

  lemma {:induction false} LiveConcat(x: Lexicon, a: seq<Group>, b: seq<Group>)
    ensures Live(x, a + b) == Live(x, a) + Live(x, b)
  {
    if b == [] {
      assert a + b == a;
    } else {
      assert (a + b)[..|a + b| - 1] == a + b[..|b| - 1];
      LiveConcat(x, a, b[..|b| - 1]);
    }
  }

  /** The user's groups come after the others, and building fails exactly when a name repeats. */
  lemma GroupsExtend(x: Lexicon, f: Layout, c: Catalog, nodes: seq<Item>, keys: seq<string>, rules: seq<CustomRule>, opt: Options, u: Additions)
    requires Flat(c, x) && nodes != [] && NamesClear(x, f, c, nodes, keys, rules, opt, u.names)
    requires !Groups(x, f, c, nodes, keys, rules, opt, [], []).failed
    ensures var own := Groups(x, f, c, nodes, keys, rules, opt, [], []).groups;
            var s := GroupsWith(x, f, c, nodes, keys, rules, opt, u);
            && (s.failed <==> !Distinct(GroupNames(own) + GroupNames(AddedGroups(x, nodes, u))))
            && (!s.failed ==> s.groups == own + AddedGroups(x, nodes, u))
  {
    var known, regions := RealNames(x, NamesOf(Regular(nodes))), ResolvedRegions(x, f, nodes, opt);
    SameResolution(x, f.names, rules, RegionReserved(regions), Ordered(c, x, keys), u.names);
    var plan := Plan(x, f.names, Ordered(c, x, keys), regions, CreatedFor(x, f, c, nodes, keys, rules, opt), opt.full, NamesOf(Regular(nodes)));
    assert plan + [] == plan;
    AddAllIsLive(x, plan);
    AddAllIsLive(x, plan + u.groups);
    LiveConcat(x, plan, u.groups);
    SanitizedConcat(x, Live(x, plan), Live(x, u.groups), known);
  }

  lemma SanitizedConcat(x: Lexicon, a: seq<Group>, b: seq<Group>, known: set<string>)
    ensures SanitizedAll(x, a + b, known) == SanitizedAll(x, a, known) + SanitizedAll(x, b, known)
    ensures GroupNames(a + b) == GroupNames(SanitizedAll(x, a, known)) + GroupNames(SanitizedAll(x, b, known))
  {
  }

  /** The last rule stays last if it is not among the others, and the others are those of both lists. */
  lemma MergedExtend(x: Lexicon, extras: seq<string>, lines: seq<string>, base: seq<string>, m: string)
    requires TrimLaws(x) && x.isMatch(m) && x.trim(m) == m && m != ""
    requires !Mentions(x, extras, m) && !Mentions(x, lines, m) && !Mentions(x, base, m)
    requires forall line | line in lines :: x.trim(line) == line && line != ""
    ensures LinesExtend(MergeRules(x, extras, base + [m]), MergeRules(x, extras + lines, base + [m]), lines)
  {
    LastStays(x, extras, base, m);
    MentionsConcat(x, extras, lines, m);
    LastStays(x, extras + lines, base, m);
    var b := Unique(x, base);
    forall line ensures line in Unique(x, extras + lines + b) <==> line in Unique(x, extras + b) || line in lines {
      InUnique(x, extras + lines + b, line);
      InUnique(x, extras + b, line);
      MentionsConcat(x, extras + lines, b, line);
      MentionsConcat(x, extras, lines, line);
      MentionsConcat(x, extras, b, line);
      MentionsItself(x, lines, line);
    }
  }

  lemma MentionsItself(x: Lexicon, lines: seq<string>, line: string)
    requires forall l | l in lines :: x.trim(l) == l
    ensures Mentions(x, lines, line) <==> line in lines
  {
    if Mentions(x, lines, line) {
      var i :| 0 <= i < |lines| && x.trim(lines[i]) == line;
      assert lines[i] in lines;
    }
    if line in lines {
      var i :| 0 <= i < |lines| && lines[i] == line;
    }
  }

  lemma LastStays(x: Lexicon, extras: seq<string>, base: seq<string>, m: string)
    requires TrimLaws(x) && x.isMatch(m) && x.trim(m) == m && m != "" && !Mentions(x, extras, m) && !Mentions(x, base, m)
    ensures MergeRules(x, extras, base + [m]) == Unique(x, extras + Unique(x, base)) + [m]
  {
    MergedBase(x, extras, base, m);
    InUnique(x, base, m);
    UniqueOfTrimmed(x, base);
    MentionsItself(x, Unique(x, base), m);
    MentionsConcat(x, extras, Unique(x, base), m);
    UniqueKeepsLast(x, extras + Unique(x, base), m);
  }

  lemma AddedAreTrimmed(x: Lexicon, norm: string -> string, u: Additions)
    requires TrimLaws(x)
    ensures forall line | line in AddedLines(x, norm, u) :: x.trim(line) == line && line != ""
  {
    UniqueOfTrimmed(x, NotBlank(x, norm, u.rules));
    UniqueOfTrimmed(x, NotBlank(x, norm, u.providerRules));
  }

  lemma ExtrasSplit(x: Lexicon, norm: string -> string, custom: seq<string>, u: Additions)
    ensures Extras(x, norm, custom, u.rules, u.providerRules) == Extras(x, norm, custom, [], []) + AddedLines(x, norm, u)
  {
    assert NormalizeRules(x, norm, []) == [];
  }

  lemma MatchIsNew(x: Lexicon, f: Layout, c: Catalog, norm: string -> string, keys: seq<string>, policy: string, out: seq<Compiled>)
    requires Lawful(x) && WellFormed(x, f, c) && PlainRules(x, norm, out)
    requires forall i | 0 <= i < |out| && out[i].line != "" :: RuleLine(x, out[i].line)
    ensures var m := x.matchLine(Policy(x, f, policy));
            && x.isMatch(m) && x.trim(m) == m && m != ""
            && !Mentions(x, BaseRules(x, f, c, keys), m) && !Mentions(x, Extras(x, norm, CustomLines(out), [], []), m)
  {
    PolicyIsTrimmed(x, f, policy);
    assert MatchLineLaw(x, Policy(x, f, policy));
    BaseIsRuleLines(x, f, c, keys);
    ExtrasAre(x, norm, out);
    NoMatchAmong(x, BaseRules(x, f, c, keys), x.matchLine(Policy(x, f, policy)));
    NoMatchAmong(x, Extras(x, norm, CustomLines(out), [], []), x.matchLine(Policy(x, f, policy)));
  }

  /** Rules with the user's lines: the same and those, and the same one last. */
  lemma RulesWithLines(x: Lexicon, f: Layout, c: Catalog, norm: string -> string, keys: seq<string>, policy: string, out: seq<Compiled>, u: Additions)
    requires Lawful(x) && WellFormed(x, f, c) && PlainRules(x, norm, out)
    requires forall i | 0 <= i < |out| && out[i].line != "" :: RuleLine(x, out[i].line)
    requires x.matchLine(Policy(x, f, policy)) !in AddedLines(x, norm, u)
    ensures LinesExtend(Rules(x, f, c, norm, keys, policy, CustomLines(out), [], []),
                        Rules(x, f, c, norm, keys, policy, CustomLines(out), u.rules, u.providerRules), AddedLines(x, norm, u))
  {
    var base, m := BaseRules(x, f, c, keys), x.matchLine(Policy(x, f, policy));
    var extras, lines := Extras(x, norm, CustomLines(out), [], []), AddedLines(x, norm, u);
    MatchIsNew(x, f, c, norm, keys, policy, out);
    AddedAreTrimmed(x, norm, u);
    MentionsItself(x, lines, m);
    ExtrasSplit(x, norm, CustomLines(out), u);
    MergedExtend(x, extras, lines, base, m);
  }

  /** The user's providers are those that no custom rule's replaces. */
  lemma ProvidersMerge(catalog: map<string, Provider>, providers: seq<Provider>, custom: seq<Provider>, u: Additions)
    requires providers == u.providers
    ensures PutAll(catalog, providers + custom) == PutAll(catalog, custom) + AddedProviders(u, PutAll(map[], custom))
  {
    PutAllConcat(catalog, providers, custom);
    PutAllMerges(catalog, providers);
    PutAllMerges(PutAll(catalog, providers), custom);
    PutAllMerges(catalog, custom);
  }

  lemma {:induction false} PutAllConcat(start: map<string, Provider>, a: seq<Provider>, b: seq<Provider>)
    ensures PutAll(start, a + b) == PutAll(PutAll(start, a), b)
  {
    if b == [] {
      assert a + b == a;
    } else {
      assert (a + b)[..|a + b| - 1] == a + b[..|b| - 1];
      PutAllConcat(start, a, b[..|b| - 1]);
    }
  }

  // ---- The theorem ----

  /** The additions do not touch what was resolved, nor repeat the line that must stay last. */
  ghost predicate Clear(x: Lexicon, f: Layout, c: Catalog, norm: string -> string, nodes: seq<Item>, keys: seq<string>, rules: seq<CustomRule>,
                        policy: string, opt: Options, u: Additions)
    requires Flat(c, x)
  {
    NamesClear(x, f, c, nodes, keys, rules, opt, u.names) && x.matchLine(Policy(x, f, policy)) !in AddedLines(x, norm, u)
  }

  /** A generated configuration that passes, with the user's groups, rules and providers: it is built and passes exactly when
      they fit the one without them. */
  lemma AdditionsPassIff(x: Lexicon, f: Layout, c: Catalog, norm: string -> string, build: Compiled -> Provider,
                         nodes: seq<Item>, keys: seq<string>, rules: seq<CustomRule>, policy: string, opt: Options, u: Additions, cfg: Config)
    requires Lawful(x) && WellFormed(x, f, c) && (forall r :: build(r).name == r.key)
    requires nodes != [] && forall i | 0 <= i < |nodes| :: x.trim(nodes[i].name) != ""
    requires PlainRules(x, norm, CompiledRules(x, f, c, rules, keys)) && Clear(x, f, c, norm, nodes, keys, rules, policy, opt, u)
    requires cfg == Generated(x, f, c, norm, build, nodes, keys, rules, policy, opt) && Accepted(x, cfg)
    ensures !GroupsWith(x, f, c, nodes, keys, rules, opt, u).failed && Accepted(x, Extended(x, f, c, norm, build, nodes, keys, rules, policy, opt, u))
            <==> AdditionsFit(x, cfg, AddedGroups(x, nodes, u), AddedLines(x, norm, u), AddedProviders(u, UserProviders(build, CompiledRules(x, f, c, rules, keys))))
  {
    var groups, lines := AddedGroups(x, nodes, u), AddedLines(x, norm, u);
    var providers := AddedProviders(u, UserProviders(build, CompiledRules(x, f, c, rules, keys)));
    GroupsDoNotFail(x, f, c, nodes, keys, rules, opt);
    GroupsExtend(x, f, c, nodes, keys, rules, opt, u);
    if !GroupsWith(x, f, c, nodes, keys, rules, opt, u).failed {
      var ext := Extended(x, f, c, norm, build, nodes, keys, rules, policy, opt, u);
      RestExtends(x, f, c, norm, build, nodes, keys, rules, policy, opt, u, cfg, ext);
      ExtensionPassesIff(x, cfg, ext, groups, lines, providers);
    }
  }

  lemma RestExtends(x: Lexicon, f: Layout, c: Catalog, norm: string -> string, build: Compiled -> Provider,
                    nodes: seq<Item>, keys: seq<string>, rules: seq<CustomRule>, policy: string, opt: Options, u: Additions, cfg: Config, ext: Config)
    requires Lawful(x) && WellFormed(x, f, c) && (forall r :: build(r).name == r.key)
    requires PlainRules(x, norm, CompiledRules(x, f, c, rules, keys)) && Clear(x, f, c, norm, nodes, keys, rules, policy, opt, u)
    requires cfg == Generated(x, f, c, norm, build, nodes, keys, rules, policy, opt)
    requires ext == Extended(x, f, c, norm, build, nodes, keys, rules, policy, opt, u)
    requires ext.groups == cfg.groups + AddedGroups(x, nodes, u)
    ensures Extends(cfg, ext, AddedGroups(x, nodes, u), AddedLines(x, norm, u), AddedProviders(u, UserProviders(build, CompiledRules(x, f, c, rules, keys))))
  {
    var out := CompiledRules(x, f, c, rules, keys);
    SameResolution(x, f.names, rules, [], Ordered(c, x, keys), u.names);
    ResolutionsAgree(x, f.names, c, rules, keys, []);
    ResolutionsAgree(x, f.names, c, rules, keys, u.names);
    ProvidersMerge(CatalogProviders(Ordered(c, x, keys)), u.providers, CustomProviders(build, out), u);
    CustomLinesFit(x, f, c, norm, build, keys, rules, policy, cfg);
    RulesWithLines(x, f, c, norm, keys, policy, out, u);
  }

  // ---- Rendering ----

  const NOTHING := Additions([], [], [], [], [])

  lemma NothingAdded(x: Lexicon, f: Layout, c: Catalog, norm: string -> string, build: Compiled -> Provider,
                     nodes: seq<Item>, keys: seq<string>, rules: seq<CustomRule>, policy: string, opt: Options)
    requires Lawful(x) && WellFormed(x, f, c) && forall i | 0 <= i < |nodes| :: x.trim(nodes[i].name) != ""
    ensures Extended(x, f, c, norm, build, nodes, keys, rules, policy, opt, NOTHING) == Generated(x, f, c, norm, build, nodes, keys, rules, policy, opt)
    ensures !GroupsWith(x, f, c, nodes, keys, rules, opt, NOTHING).failed
  {
    var out := CompiledRules(x, f, c, rules, keys);
    assert [] + CustomProviders(build, out) == CustomProviders(build, out);
    if nodes != [] {
      GroupsDoNotFail(x, f, c, nodes, keys, rules, opt);
    }
  }

  /** `RenderMihomo` up to serialisation: the three builders, then the linter. Without additions it fails exactly on what the
      inputs bring in, never on anything the generator added; additions to inputs that fit must fit in turn. */
  method Render(x: Lexicon, f: Layout, c: Catalog, norm: string -> string, build: Compiled -> Provider,
                nodes: seq<Item>, keys: seq<string>, rules: seq<CustomRule>, policy: string, opt: Options, u: Additions)
    returns (cfg: Config, ok: bool)
    requires Lawful(x) && WellFormed(x, f, c) && (forall r :: build(r).name == r.key)
    requires forall i | 0 <= i < |nodes| :: x.trim(nodes[i].name) != ""
    ensures cfg == Extended(x, f, c, norm, build, nodes, keys, rules, policy, opt, u)
    ensures ok <==> !GroupsWith(x, f, c, nodes, keys, rules, opt, u).failed && Accepted(x, cfg)
    ensures nodes != [] && PlainRules(x, norm, CompiledRules(x, f, c, rules, keys)) && u == NOTHING ==>
              (ok <==> InputsFit(x, f, c, build, nodes, keys, rules, opt))
    ensures var base := Generated(x, f, c, norm, build, nodes, keys, rules, policy, opt);
            nodes != [] && PlainRules(x, norm, CompiledRules(x, f, c, rules, keys)) && Clear(x, f, c, norm, nodes, keys, rules, policy, opt, u)
            && InputsFit(x, f, c, build, nodes, keys, rules, opt) ==>
              (ok <==> AdditionsFit(x, base, AddedGroups(x, nodes, u), AddedLines(x, norm, u),
                                    AddedProviders(u, UserProviders(build, CompiledRules(x, f, c, rules, keys)))))
  {
    cfg, ok := BuildAndLint(x, f, c, norm, build, nodes, keys, rules, policy, opt, u);
    if nodes != [] && PlainRules(x, norm, CompiledRules(x, f, c, rules, keys)) {
      GeneratorSatisfiesLinterIff(x, f, c, norm, build, nodes, keys, rules, policy, opt);
      if u == NOTHING {
        NothingAdded(x, f, c, norm, build, nodes, keys, rules, policy, opt);
      }
      if Clear(x, f, c, norm, nodes, keys, rules, policy, opt, u) && InputsFit(x, f, c, build, nodes, keys, rules, opt) {
        AdditionsPassIff(x, f, c, norm, build, nodes, keys, rules, policy, opt, u, Generated(x, f, c, norm, build, nodes, keys, rules, policy, opt));
      }
    }
  }

  method BuildAndLint(x: Lexicon, f: Layout, c: Catalog, norm: string -> string, build: Compiled -> Provider,
                      nodes: seq<Item>, keys: seq<string>, rules: seq<CustomRule>, policy: string, opt: Options, u: Additions)
    returns (cfg: Config, ok: bool)
    requires Flat(c, x)
    ensures cfg == Extended(x, f, c, norm, build, nodes, keys, rules, policy, opt, u)
    ensures ok <==> !GroupsWith(x, f, c, nodes, keys, rules, opt, u).failed && Accepted(x, cfg)
  {
    var forProviders := ResolveCustomRules(x, f.names, c, rules, keys, [], u.names);
    var _, extra := CollectCustom(build, forProviders);
    var providers := BuildRuleProviders(c, x, keys, u.providers + extra);
    var enabled := NormalizeEnabledRuleKeys(c, x, keys);
    var forRules := ResolveCustomRules(x, f.names, c, rules, enabled, [], u.names);
    var lines, _ := CollectCustom(build, forRules);
    var written := BuildRules(x, f, c, norm, keys, policy, lines, u.rules, u.providerRules);
    var s := BuildProxyGroups(x, f, c, nodes, keys, rules, opt, u.groups, u.names);
    cfg := Config(NamesOf(nodes), s.groups, providers, written);
    if s.failed {
      return cfg, false;
    }
    ok := Lint(x, cfg);
  }
}
