/** `buildProxyGroups` and the functions it is made of, in `internal/renderer/mihomo.go`. */
module ProxyGroups {
  import opened Common
  import opened RuleText
  import opened RuleCatalog
  import opened ConfigLint
  import opened CustomRules

  datatype Region = Region(tag: string, name: string, auto: string)

  /** The remaining fixed tables and names; the aliases are short forms of the final policy. */
  datatype Layout = Layout(names: Names, regions: seq<Region>, domesticTarget: string, cnProvider: string,
                           finalAlias: string, selectAlias: string)

  /** A node as the renderer sees it: its name, whether it only carries information, its region code. */
  datatype Item = Item(name: string, info: bool, region: string)

  datatype Options = Options(regionGroups: bool, full: bool)

  datatype Resolved = Resolved(name: string, auto: string, proxies: seq<string>)

  // ---- Inputs ----

  function Regular(nodes: seq<Item>): seq<Item> {
    if nodes == [] then [] else Regular(nodes[..|nodes| - 1]) + if nodes[|nodes| - 1].info then [] else [nodes[|nodes| - 1]]
  }

  function NamesOf(nodes: seq<Item>): seq<string> {
    seq(|nodes|, i requires 0 <= i < |nodes| => nodes[i].name)
  }

  /** `filterOutInfoNodes`. */
  method FilterOutInfoNodes(nodes: seq<Item>) returns (out: seq<Item>)
    ensures out == Regular(nodes)
  {
    out := [];
    for i := 0 to |nodes|
      invariant out == Regular(nodes[..i])
    {
      assert nodes[..i + 1][..i] == nodes[..i];
      if nodes[i].info {
        continue;
      }
      out := out + [nodes[i]];
    }
    assert nodes[..|nodes|] == nodes;
  }

  /** The trimmed names of the nodes with a region code. */
  function Members(x: Lexicon, tag: string, nodes: seq<Item>): seq<string> {
    if nodes == [] then []
    else
      var n := nodes[|nodes| - 1];
      Members(x, tag, nodes[..|nodes| - 1]) + if x.trim(n.name) != "" && n.region == tag then [x.trim(n.name)] else []
  }

  function Regions(x: Lexicon, table: seq<Region>, nodes: seq<Item>): seq<Resolved> {
    if table == [] then []
    else
      var g := table[|table| - 1];
      var proxies := Unique(x, Members(x, g.tag, nodes));
      Regions(x, table[..|table| - 1], nodes) + if proxies == [] then [] else [Resolved(g.name, g.auto, proxies)]
  }

  function RegionNames(regions: seq<Resolved>): seq<string> {
    seq(|regions|, i requires 0 <= i < |regions| => regions[i].name)
  }

  /** `regionProxyGroupReservedNames`. */
  function RegionReserved(regions: seq<Resolved>): seq<string> {
    if regions == [] then [] else RegionReserved(regions[..|regions| - 1]) + [regions[|regions| - 1].name, regions[|regions| - 1].auto]
  }

  method MembersOf(x: Lexicon, tag: string, nodes: seq<Item>) returns (out: seq<string>)
    ensures out == Members(x, tag, nodes)
  {
    out := [];
    for i := 0 to |nodes|
      invariant out == Members(x, tag, nodes[..i])
    {
      assert nodes[..i + 1][..i] == nodes[..i];
      var name := x.trim(nodes[i].name);
      if name == "" {
        continue;
      }
      if nodes[i].region == tag {
        out := out + [name];
      }
    }
    assert nodes[..|nodes|] == nodes;
  }

  /** `resolveRegionProxyGroups`, of a table that has no blank and no catch-all code. */
  method ResolveRegionProxyGroups(x: Lexicon, table: seq<Region>, nodes: seq<Item>) returns (out: seq<Resolved>)
    ensures out == Regions(x, table, nodes)
  {
    out := [];
    for i := 0 to |table|
      invariant out == Regions(x, table[..i], nodes)
    {
      assert table[..i + 1][..i] == table[..i];
      var members := MembersOf(x, table[i].tag, nodes);
      var proxies := UniqueOrdered(x, members);
      if |proxies| == 0 {
        continue;
      }
      out := out + [Resolved(table[i].name, table[i].auto, proxies)];
    }
    assert table[..|table|] == table;
  }

  // ---- The plan: every group that is offered to addGroup ----

  predicate PolicyTarget(x: Lexicon, f: Names, t: string) {
    x.trim(t) in {x.direct, x.reject, f.nodeSelect, f.autoSelect, f.finalGroup} || f.isProxy(x.trim(t))
  }

  /** `serviceGroupProxiesForCategory`. */
  function Service(x: Lexicon, f: Names, key: string, full: bool, regular: seq<string>, regions: seq<string>): seq<string> {
    match key
    case "adblock" => [x.reject, x.direct, f.nodeSelect]
    case "private" => [x.direct, x.reject, f.nodeSelect] + if regular != [] then [f.autoSelect] else []
    case "domestic" => [x.direct, x.reject, f.nodeSelect] + if regular != [] then [f.autoSelect] else []
    case _ =>
      Unique(x, [f.nodeSelect] + (if regular != [] then [f.autoSelect] else []) + [x.direct, x.reject] + regions + if full then regular else [])
  }

  function MainSelect(x: Lexicon, f: Names, regular: seq<string>, regions: seq<string>): seq<string> {
    if regular == [] then [x.direct, x.reject] else [f.autoSelect, x.direct, x.reject] + regions + regular
  }

  function RegionPlan(x: Lexicon, regions: seq<Resolved>): seq<Group> {
    if regions == [] then []
    else
      var g := regions[|regions| - 1];
      RegionPlan(x, regions[..|regions| - 1])
        + [Group(g.auto, "url-test", g.proxies), Group(g.name, "select", [g.auto, x.direct] + g.proxies)]
  }

  function CategoryPlan(x: Lexicon, f: Names, categories: seq<Category>, full: bool, regular: seq<string>, regions: seq<string>): seq<Group> {
    if categories == [] then []
    else
      var c := categories[|categories| - 1];
      CategoryPlan(x, f, categories[..|categories| - 1], full, regular, regions)
        + if x.trim(c.groupName) == "" || PolicyTarget(x, f, c.groupName) then []
          else [Group(c.groupName, "select", Service(x, f, c.key, full, regular, regions))]
  }

  function CustomPlan(created: seq<string>, proxies: seq<string>): seq<Group> {
    seq(|created|, i requires 0 <= i < |created| => Group(created[i], "select", proxies))
  }

  /** Everything before the user's own groups. */
  function Plan(x: Lexicon, f: Names, categories: seq<Category>, regions: seq<Resolved>, created: seq<string>, full: bool, regular: seq<string>): seq<Group> {
    var names, service := RegionNames(regions), Service(x, f, "", full, regular, RegionNames(regions));
    [Group(f.nodeSelect, "select", MainSelect(x, f, regular, names)), Group(f.autoSelect, "url-test", regular)]
      + RegionPlan(x, regions) + CategoryPlan(x, f, categories, full, regular, names) + CustomPlan(created, service)
      + [Group(f.finalGroup, "select", service)]
  }

  // ---- addGroup ----

  datatype Sum = Sum(groups: seq<Group>, failed: bool)

  /** A group without members is skipped; a repeated name is an error, after which nothing is added. */
  function Add(x: Lexicon, s: Sum, g: Group): Sum {
    var proxies := Unique(x, g.proxies);
    if s.failed || proxies == [] then s
    else if g.name in GroupNames(s.groups) then s.(failed := true)
    else s.(groups := s.groups + [g.(proxies := proxies)])
  }

  function AddAll(x: Lexicon, s: Sum, plan: seq<Group>): Sum {
    if plan == [] then s else Add(x, AddAll(x, s, plan[..|plan| - 1]), plan[|plan| - 1])
  }

  /** The groups that have members, with these made unique. */
  function Live(x: Lexicon, plan: seq<Group>): seq<Group> {
    if plan == [] then []
    else
      var g := plan[|plan| - 1];
      Live(x, plan[..|plan| - 1]) + if Unique(x, g.proxies) == [] then [] else [g.(proxies := Unique(x, g.proxies))]
  }

  function Start(): Sum { Sum([], false) }

  lemma GroupNamesLast(groups: seq<Group>, g: Group)
    ensures GroupNames(groups + [g]) == GroupNames(groups) + [g.name]
  {
  }

  /** Building fails exactly when two groups with members share a name; otherwise it gives the live groups. */
  lemma {:induction false} AddAllIsLive(x: Lexicon, plan: seq<Group>)
    ensures var s := AddAll(x, Start(), plan);
            && (s.failed <==> !Distinct(GroupNames(Live(x, plan))))
            && (!s.failed ==> s.groups == Live(x, plan))
  {
    if plan != [] {
      var init, g := plan[..|plan| - 1], plan[|plan| - 1];
      AddAllIsLive(x, init);
      var live, proxies := Live(x, init), Unique(x, g.proxies);
      if proxies != [] {
        GroupNamesLast(live, g.(proxies := proxies));
        DistinctLast(GroupNames(live), g.name);
      } else {
        assert live + [] == live;
      }
    }
  }

  lemma {:induction false} AddAllConcat(x: Lexicon, s: Sum, a: seq<Group>, b: seq<Group>)
    ensures AddAll(x, s, a + b) == AddAll(x, AddAll(x, s, a), b)
  {
    if b == [] {
      assert a + b == a;
    } else {
      AddAllConcat(x, s, a, b[..|b| - 1]);
      assert (a + b)[..|a + b| - 1] == a + b[..|b| - 1];
    }
  }

  lemma AddAllTwo(x: Lexicon, s: Sum, g: Group, h: Group)
    ensures AddAll(x, s, [g]) == Add(x, s, g)
    ensures AddAll(x, s, [g, h]) == Add(x, Add(x, s, g), h)
  {
  }

  // ---- buildProxyGroups ----

  predicate AutoKind(kind: string) {
    kind in {"url-test", "fallback", "load-balance"}
  }

  function Filtered(x: Lexicon, refs: seq<string>, known: set<string>): seq<string> {
    if refs == [] then []
    else
      var ref := x.trim(refs[|refs| - 1]);
      Filtered(x, refs[..|refs| - 1], known) + if ref == "" || ref !in known then [] else [ref]
  }

  function RealNames(x: Lexicon, names: seq<string>): set<string> {
    (set n | n in names :: x.trim(n)) - {""}
  }

  /** Automatic groups keep real nodes only. */
  function Sanitized(x: Lexicon, g: Group, known: set<string>): Group {
    if AutoKind(x.lower(g.kind)) then g.(proxies := Unique(x, Filtered(x, g.proxies, known))) else g
  }

  function SanitizedAll(x: Lexicon, groups: seq<Group>, known: set<string>): seq<Group> {
    seq(|groups|, i requires 0 <= i < |groups| => Sanitized(x, groups[i], known))
  }

  function ResolvedRegions(x: Lexicon, f: Layout, nodes: seq<Item>, opt: Options): seq<Resolved> {
    if opt.regionGroups then Regions(x, f.regions, Regular(nodes)) else []
  }

  function CreatedNames(x: Lexicon, f: Layout, c: Catalog, keys: seq<string>, rules: seq<CustomRule>, regions: seq<Resolved>, customNames: seq<string>): seq<string>
    requires Flat(c, x)
  {
    Created(Resolve(x, f.names, rules, Reserved(x, f.names, RegionReserved(regions), Ordered(c, x, keys), customNames)).out)
  }

  /** What `buildProxyGroups` returns for a node list that is not empty. */
  function Groups(x: Lexicon, f: Layout, c: Catalog, nodes: seq<Item>, keys: seq<string>, rules: seq<CustomRule>, opt: Options,
                  custom: seq<Group>, customNames: seq<string>): Sum
    requires Flat(c, x)
  {
    var regular, regions := NamesOf(Regular(nodes)), ResolvedRegions(x, f, nodes, opt);
    var created := CreatedNames(x, f, c, keys, rules, regions, customNames);
    var s := AddAll(x, Start(), Plan(x, f.names, Ordered(c, x, keys), regions, created, opt.full, regular) + custom);
    s.(groups := SanitizedAll(x, s.groups, RealNames(x, regular)))
  }

  method AddGroup(x: Lexicon, s: Sum, g: Group) returns (s': Sum)
    ensures s' == Add(x, s, g)
  {
    s' := s;
    var proxies := UniqueOrdered(x, g.proxies);
    if s.failed || |proxies| == 0 {
      return;
    }
    if g.name in GroupNames(s.groups) {
      s' := s.(failed := true);
      return;
    }
    s' := s.(groups := s.groups + [g.(proxies := proxies)]);
  }

  method AddGroups(x: Lexicon, s: Sum, plan: seq<Group>) returns (s': Sum)
    ensures s' == AddAll(x, s, plan)
  {
    s' := s;
    for i := 0 to |plan|
      invariant s' == AddAll(x, s, plan[..i])
    {
      assert plan[..i + 1][..i] == plan[..i];
      s' := AddGroup(x, s', plan[i]);
    }
    assert plan[..|plan|] == plan;
  }

  method AddRegions(x: Lexicon, s: Sum, regions: seq<Resolved>) returns (s': Sum)
    ensures s' == AddAll(x, s, RegionPlan(x, regions))
  {
    s' := s;
    for i := 0 to |regions|
      invariant s' == AddAll(x, s, RegionPlan(x, regions[..i]))
    {
      assert regions[..i + 1][..i] == regions[..i];
      var g := regions[i];
      var auto, select := Group(g.auto, "url-test", g.proxies), Group(g.name, "select", [g.auto, x.direct] + g.proxies);
      AddAllConcat(x, s, RegionPlan(x, regions[..i]), [auto, select]);
      AddAllTwo(x, s', auto, select);
      s' := AddGroup(x, s', auto);
      s' := AddGroup(x, s', select);
    }
    assert regions[..|regions|] == regions;
  }

  method AddCategories(x: Lexicon, f: Names, s: Sum, categories: seq<Category>, full: bool, regular: seq<string>, regions: seq<string>) returns (s': Sum)
    ensures s' == AddAll(x, s, CategoryPlan(x, f, categories, full, regular, regions))
  {
    s' := s;
    for i := 0 to |categories|
      invariant s' == AddAll(x, s, CategoryPlan(x, f, categories[..i], full, regular, regions))
    {
      assert categories[..i + 1][..i] == categories[..i];
      var c := categories[i];
      var before := CategoryPlan(x, f, categories[..i], full, regular, regions);
      if x.trim(c.groupName) == "" || PolicyTarget(x, f, c.groupName) {
        assert before + [] == before;
        continue;
      }
      var g := Group(c.groupName, "select", Service(x, f, c.key, full, regular, regions));
      AddAllConcat(x, s, before, [g]);
      AddAllTwo(x, s', g, g);
      s' := AddGroup(x, s', g);
    }
    assert categories[..|categories|] == categories;
  }

  method SanitizeGenerated(x: Lexicon, groups: seq<Group>, known: set<string>) returns (out: seq<Group>)
    ensures out == SanitizedAll(x, groups, known)
  {
    out := [];
    for i := 0 to |groups|
      invariant |out| == i && forall j | 0 <= j < i :: out[j] == Sanitized(x, groups[j], known)
    {
      out := out + [Sanitized(x, groups[i], known)];
    }
  }

  /** `buildProxyGroups`; `custom` holds the user's enabled groups, `customNames` the names of all of them. */
  method BuildProxyGroups(x: Lexicon, f: Layout, c: Catalog, nodes: seq<Item>, keys: seq<string>, rules: seq<CustomRule>, opt: Options,
                          custom: seq<Group>, customNames: seq<string>) returns (s: Sum)
    requires Flat(c, x)
    ensures nodes == [] ==> s == Sum([Group(f.names.nodeSelect, "select", [x.direct])], false)
    ensures nodes != [] ==> s == Groups(x, f, c, nodes, keys, rules, opt, custom, customNames)
  {
    var regularNodes := FilterOutInfoNodes(nodes);
    var regular := NamesOf(regularNodes);
    if |nodes| == 0 {
      return Sum([Group(f.names.nodeSelect, "select", [x.direct])], false);
    }
    var regions: seq<Resolved> := [];
    if opt.regionGroups {
      regions := ResolveRegionProxyGroups(x, f.regions, regularNodes);
    }
    var resolved := ResolveCustomRules(x, f.names, c, rules, keys, RegionReserved(regions), customNames);
    var categories := OrderedByOrder(c, x, keys, c.order);
    var created, names := Created(resolved), RegionNames(regions);
    s := AddPlan(x, f.names, categories, regions, created, opt.full, regular, custom);
    var groups := SanitizeGenerated(x, s.groups, RealNames(x, regular));
    s := s.(groups := groups);
  }

  method AddPlan(x: Lexicon, f: Names, categories: seq<Category>, regions: seq<Resolved>, created: seq<string>, full: bool,
                 regular: seq<string>, custom: seq<Group>) returns (s: Sum)
    ensures s == AddAll(x, Start(), Plan(x, f, categories, regions, created, full, regular) + custom)
  {
    var names := RegionNames(regions);
    var service := Service(x, f, "", full, regular, names);
    ghost var p1 := [Group(f.nodeSelect, "select", MainSelect(x, f, regular, names)), Group(f.autoSelect, "url-test", regular)];
    ghost var p2, p3 := RegionPlan(x, regions), CategoryPlan(x, f, categories, full, regular, names);
    ghost var p4, p5 := CustomPlan(created, service), [Group(f.finalGroup, "select", service)];
    s := Start();
    AddAllTwo(x, s, p1[0], p1[1]);
    s := AddGroup(x, s, Group(f.nodeSelect, "select", MainSelect(x, f, regular, names)));
    s := AddGroup(x, s, Group(f.autoSelect, "url-test", regular));
    s := AddRegions(x, s, regions);
    AddAllConcat(x, Start(), p1, p2);
    s := AddCategories(x, f, s, categories, full, regular, names);
    AddAllConcat(x, Start(), p1 + p2, p3);
    s := AddGroups(x, s, CustomPlan(created, service));
    AddAllConcat(x, Start(), p1 + p2 + p3, p4);
    AddAllTwo(x, s, p5[0], p5[0]);
    s := AddGroup(x, s, Group(f.finalGroup, "select", service));
    AddAllConcat(x, Start(), p1 + p2 + p3 + p4, p5);
    s := AddGroups(x, s, custom);
    AddAllConcat(x, Start(), p1 + p2 + p3 + p4 + p5, custom);
  }

  // ---- What was linted is what is written ----

  lemma {:induction false} FilteredElements(x: Lexicon, refs: seq<string>, known: set<string>)
    requires TrimLaws(x)
    ensures forall v | v in Filtered(x, refs, known) :: v != "" && v in known && x.trim(v) == v
  {
    if refs != [] {
      FilteredElements(x, refs[..|refs| - 1], known);
    }
  }

  lemma {:induction false} FilteredStays(x: Lexicon, refs: seq<string>, known: set<string>)
    requires forall i | 0 <= i < |refs| :: x.trim(refs[i]) == refs[i] && refs[i] != "" && refs[i] in known
    ensures Filtered(x, refs, known) == refs
  {
    if refs != [] {
      FilteredStays(x, refs[..|refs| - 1], known);
    }
  }

  /** Filtering by more known names what has been filtered by fewer changes nothing. */
  lemma FilteredAgain(x: Lexicon, refs: seq<string>, known: set<string>, more: set<string>)
    requires TrimLaws(x) && known <= more
    ensures var once := Unique(x, Filtered(x, refs, known)); Unique(x, Filtered(x, once, more)) == once
  {
    var kept := Filtered(x, refs, known);
    var once := Unique(x, kept);
    FilteredElements(x, refs, known);
    forall v | v in once ensures x.trim(v) == v && v != "" && v in more {
      InUnique(x, kept, v);
      var i :| 0 <= i < |kept| && x.trim(kept[i]) == v;
      assert kept[i] in kept;
    }
    assert forall i | 0 <= i < |once| :: once[i] in once;
    FilteredStays(x, once, more);
    UniqueIsDistinct(x, kept);
    UniqueOfUnique(x, once);
  }

  /** `sanitizeConfigBeforeSerialize` filters the groups once more, by the names of all proxies. Whatever the user
      configured, it changes nothing: the groups that are written are the groups that were linted. */
  lemma LintedIsWritten(x: Lexicon, f: Layout, c: Catalog, nodes: seq<Item>, keys: seq<string>, rules: seq<CustomRule>, opt: Options,
                        custom: seq<Group>, customNames: seq<string>)
    requires TrimLaws(x) && Flat(c, x)
    ensures var groups := Groups(x, f, c, nodes, keys, rules, opt, custom, customNames).groups;
            SanitizedAll(x, groups, RealNames(x, NamesOf(nodes))) == groups
  {
    var known, more := RealNames(x, NamesOf(Regular(nodes))), RealNames(x, NamesOf(nodes));
    RegularAreNodes(nodes);
    assert known <= more;
    var s := AddAll(x, Start(), Plan(x, f.names, Ordered(c, x, keys), ResolvedRegions(x, f, nodes, opt),
      CreatedNames(x, f, c, keys, rules, ResolvedRegions(x, f, nodes, opt), customNames), opt.full, NamesOf(Regular(nodes))) + custom);
    SanitizedAgain(x, s.groups, known, more);
  }

  lemma SanitizedAgain(x: Lexicon, groups: seq<Group>, known: set<string>, more: set<string>)
    requires TrimLaws(x) && known <= more
    ensures SanitizedAll(x, SanitizedAll(x, groups, known), more) == SanitizedAll(x, groups, known)
  {
    forall i | 0 <= i < |groups| ensures Sanitized(x, Sanitized(x, groups[i], known), more) == Sanitized(x, groups[i], known) {
      FilteredAgain(x, groups[i].proxies, known, more);
    }
  }

  lemma {:induction false} RegularAreNodes(nodes: seq<Item>)
    ensures forall n | n in NamesOf(Regular(nodes)) :: n in NamesOf(nodes)
  {
    if nodes != [] {
      var init, last := nodes[..|nodes| - 1], nodes[|nodes| - 1];
      RegularAreNodes(init);
      assert NamesOf(nodes) == NamesOf(init) + [last.name];
      assert NamesOf(Regular(init) + [last]) == NamesOf(Regular(init)) + [last.name];
      assert Regular(init) + [] == Regular(init);
    }
  }
}
