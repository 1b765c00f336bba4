/** The configuration the generator hands to its linter, and what its inputs must meet for the linter to pass it. */
module GeneratedConfig {
  import opened Common
  import opened RuleText
  import opened RuleCatalog
  import opened ConfigLint
  import opened CustomRules
  import opened ProxyGroups
  import opened RuleBuilder
  import opened PlannedGroups

  /** The custom rules as the builders of rules and providers resolve them. */
  function CompiledRules(x: Lexicon, f: Layout, c: Catalog, rules: seq<CustomRule>, keys: seq<string>): seq<Compiled>
    requires Flat(c, x)
  {
    Resolve(x, f.names, rules, Reserved(x, f.names, [], Ordered(c, x, keys), [])).out
  }

  /** `customRuleLines`. */
  function CustomLines(out: seq<Compiled>): seq<string> {
    if out == [] then [] else CustomLines(out[..|out| - 1]) + if out[|out| - 1].line == "" then [] else [out[|out| - 1].line]
  }

  /** The providers of custom rules; `build` is `buildCustomRuleProvider`, with the rule's key as the name. */
  function CustomProviders(build: Compiled -> Provider, out: seq<Compiled>): seq<Provider> {
    if out == [] then []
    else CustomProviders(build, out[..|out| - 1]) + if out[|out| - 1].line == "" then [] else [build(out[|out| - 1])]
  }

  /** The groups; of an empty node list there is only the node selection. */
  function GroupsFor(x: Lexicon, f: Layout, c: Catalog, nodes: seq<Item>, keys: seq<string>, rules: seq<CustomRule>, opt: Options): seq<Group>
    requires Flat(c, x)
  {
    if nodes == [] then [Group(f.names.nodeSelect, "select", [x.direct])] else Groups(x, f, c, nodes, keys, rules, opt, [], []).groups
  }

  /** What the generator hands to the linter; `norm` is `normalizeRuleLine`. */
  function Generated(x: Lexicon, f: Layout, c: Catalog, norm: string -> string, build: Compiled -> Provider,
                     nodes: seq<Item>, keys: seq<string>, rules: seq<CustomRule>, policy: string, opt: Options): Config
    requires Flat(c, x)
  {
    Config(NamesOf(nodes), GroupsFor(x, f, c, nodes, keys, rules, opt),
           PutAll(CatalogProviders(Ordered(c, x, keys)), CustomProviders(build, CompiledRules(x, f, c, rules, keys))),
           Rules(x, f, c, norm, keys, policy, CustomLines(CompiledRules(x, f, c, rules, NormalizeKeys(c, x, keys))), [], []))
  }

  /** Keys and targets without commas or outer space, whose lines normalisation leaves alone. */
  ghost predicate PlainRules(x: Lexicon, norm: string -> string, out: seq<Compiled>) {
    forall i | 0 <= i < |out| && out[i].line != "" ::
      x.clean(out[i].key) && x.clean(out[i].target) && norm(out[i].line) == out[i].line
  }

  // ---- What the inputs must meet ----

  /** The inputs call for a group with this name. */
  ghost predicate GroupMade(x: Lexicon, f: Layout, c: Catalog, nodes: seq<Item>, keys: seq<string>, rules: seq<CustomRule>, opt: Options, n: string)
    requires Flat(c, x)
  {
    GroupThere(x, f, Ordered(c, x, keys), NamesOf(Regular(nodes)), ResolvedRegions(x, f, nodes, opt), CreatedFor(x, f, c, nodes, keys, rules, opt), n)
  }

  /** The trimmed name of every regular node is a node's name, built in, or a group's. */
  ghost predicate NodesKnown(x: Lexicon, f: Layout, c: Catalog, nodes: seq<Item>, keys: seq<string>, rules: seq<CustomRule>, opt: Options)
    requires Flat(c, x)
  {
    forall i | 0 <= i < |nodes| && !nodes[i].info ::
      var n := x.trim(nodes[i].name); n in NamesOf(nodes) || x.builtin(n) || GroupMade(x, f, c, nodes, keys, rules, opt, n)
  }

  /** The target that a custom rule names itself, where it does not create a group; nothing reserved matters then. */
  function GivenTarget(x: Lexicon, f: Names, rule: CustomRule): string {
    Target(x, f, rule, {})
  }

  ghost predicate Given(x: Lexicon, f: Names, rules: seq<CustomRule>, t: string) {
    exists rule :: rule in rules && Counts(x, rule) && !rule.groupOnly && !Creates(x, f, rule) && GivenTarget(x, f, rule) == t
  }

  /** Every target that a custom rule names is built in or a group's. */
  ghost predicate TargetsKnown(x: Lexicon, f: Layout, c: Catalog, nodes: seq<Item>, keys: seq<string>, rules: seq<CustomRule>, opt: Options)
    requires Flat(c, x)
  {
    forall t | Given(x, f.names, rules, t) :: x.builtin(t) || GroupMade(x, f, c, nodes, keys, rules, opt, t)
  }

  /** The providers of custom rules, by name; of two with one name the later counts. */
  function UserProviders(build: Compiled -> Provider, out: seq<Compiled>): map<string, Provider> {
    PutAll(map[], CustomProviders(build, out))
  }

  predicate SamePath(p: Provider, q: Provider) {
    p.path != "" && p.path == q.path
  }

  /** No provider of a custom rule has a shape its format forbids, or the file of another one, or the file of a
      catalog provider that it does not replace. */
  ghost predicate ProvidersApart(x: Lexicon, catalog: map<string, Provider>, user: map<string, Provider>) {
    && (forall n | n in user :: !BadShape(x, user[n]))
    && (forall m, n | m in user && n in user && m != n :: !SamePath(user[m], user[n]))
    && (forall m, n | m in user && n in catalog && n !in user :: !SamePath(user[m], catalog[n]))
  }

  ghost predicate InputsFit(x: Lexicon, f: Layout, c: Catalog, build: Compiled -> Provider,
                            nodes: seq<Item>, keys: seq<string>, rules: seq<CustomRule>, opt: Options)
    requires Flat(c, x)
  {
    && Distinct(NamesOf(nodes)) && NodesKnown(x, f, c, nodes, keys, rules, opt) && TargetsKnown(x, f, c, nodes, keys, rules, opt)
    && ProvidersApart(x, CatalogProviders(Ordered(c, x, keys)), UserProviders(build, CompiledRules(x, f, c, rules, keys)))
  }

  ghost predicate GivenIn(out: seq<Compiled>, t: string) {
    exists i :: 0 <= i < |out| && out[i].line != "" && !out[i].create && out[i].target == t
  }

  /** The resolution keeps the targets that rules name themselves. */
  lemma {:induction false} GivenAre(x: Lexicon, f: Names, rules: seq<CustomRule>, reserved: set<string>, t: string)
    requires RuleLaws(x)
    ensures GivenIn(Resolve(x, f, rules, reserved).out, t) <==> Given(x, f, rules, t)
  {
    if rules != [] {
      var init, rule := rules[..|rules| - 1], rules[|rules| - 1];
      assert rules == init + [rule];
      GivenAre(x, f, init, reserved, t);
      var before, after := Resolve(x, f, init, reserved).out, Resolve(x, f, rules, reserved).out;
      var given := Counts(x, rule) && !rule.groupOnly && !Creates(x, f, rule) && GivenTarget(x, f, rule) == t;
      assert Given(x, f, rules, t) <==> Given(x, f, init, t) || given by {
        if Given(x, f, init, t) {
          var r :| r in init && Counts(x, r) && !r.groupOnly && !Creates(x, f, r) && GivenTarget(x, f, r) == t;
          assert r in rules;
        }
        if given {
          assert rule in rules;
        }
      }
      if Counts(x, rule) {
        GivenInLast(before, after[|before|], t);
      }
    }
  }

  lemma GivenInLast(out: seq<Compiled>, last: Compiled, t: string)
    ensures GivenIn(out + [last], t) <==> GivenIn(out, t) || (last.line != "" && !last.create && last.target == t)
  {
    var all := out + [last];
    assert all[|out|] == last && forall i | 0 <= i < |out| :: all[i] == out[i];
  }
}
