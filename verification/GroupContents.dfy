/** What the generated groups contain, told by the nodes: who is in which group, and what each group chooses first. */
module GroupContents {
  import opened Common
  import opened RuleText
  import opened RuleCatalog
  import opened ConfigLint
  import opened CustomRules
  import opened ProxyGroups
  import opened PlannedGroups

  // ---- The nodes ----

  ghost predicate HasNodes(nodes: seq<Item>) {
    exists i :: 0 <= i < |nodes| && !nodes[i].info
  }

  /** A regular node has this name, apart from outer space. */
  ghost predicate NodeNamed(x: Lexicon, nodes: seq<Item>, v: string) {
    v != "" && exists i :: 0 <= i < |nodes| && !nodes[i].info && x.trim(nodes[i].name) == v
  }

  ghost predicate NodeIn(x: Lexicon, nodes: seq<Item>, tag: string, v: string) {
    v != "" && exists i :: 0 <= i < |nodes| && !nodes[i].info && nodes[i].region == tag && x.trim(nodes[i].name) == v
  }

  ghost predicate SomeIn(x: Lexicon, nodes: seq<Item>, tag: string) {
    exists v :: NodeIn(x, nodes, tag, v)
  }

  /** Region groups are on, and some node is in the region. */
  ghost predicate Shown(x: Lexicon, f: Layout, nodes: seq<Item>, opt: Options, t: Region) {
    opt.regionGroups && t in f.regions && SomeIn(x, nodes, t.tag)
  }

  ghost predicate RegionNamed(x: Lexicon, f: Layout, nodes: seq<Item>, opt: Options, v: string) {
    exists t :: Shown(x, f, nodes, opt, t) && t.name == v
  }

  lemma {:induction false} RegularMention(x: Lexicon, nodes: seq<Item>, v: string)
    ensures v != "" && Mentions(x, NamesOf(Regular(nodes)), v) <==> NodeNamed(x, nodes, v)
    ensures NamesOf(Regular(nodes)) != [] <==> HasNodes(nodes)
  {
    RegularNames(nodes);
    var names := NamesOf(Regular(nodes));
    if Mentions(x, names, v) {
      var i :| 0 <= i < |names| && x.trim(names[i]) == v;
      assert names[i] in names;
    }
    if names != [] {
      assert names[0] in names;
    }
    if v != "" && NodeNamed(x, nodes, v) {
      var i :| 0 <= i < |nodes| && !nodes[i].info && x.trim(nodes[i].name) == v;
      assert nodes[i].name in names;
      var j :| 0 <= j < |names| && names[j] == nodes[i].name;
    }
  }

  lemma NodeInLast(x: Lexicon, init: seq<Item>, n: Item, tag: string, v: string)
    ensures NodeIn(x, init + [n], tag, v) <==> NodeIn(x, init, tag, v) || (v != "" && !n.info && n.region == tag && x.trim(n.name) == v)
  {
    var nodes := init + [n];
    assert nodes[|init|] == n;
    if NodeIn(x, init, tag, v) {
      var i :| 0 <= i < |init| && !init[i].info && init[i].region == tag && x.trim(init[i].name) == v;
      assert nodes[i] == init[i];
    }
  }

  lemma MembersLast(x: Lexicon, tag: string, nodes: seq<Item>, n: Item, v: string)
    ensures v in Members(x, tag, nodes + [n]) <==> v in Members(x, tag, nodes) || (v != "" && n.region == tag && x.trim(n.name) == v)
  {
    assert (nodes + [n])[..|nodes|] == nodes;
  }

  lemma {:induction false} MembersAre(x: Lexicon, tag: string, nodes: seq<Item>, v: string)
    ensures v in Members(x, tag, Regular(nodes)) <==> NodeIn(x, nodes, tag, v)
  {
    if nodes != [] {
      var init, n := nodes[..|nodes| - 1], nodes[|nodes| - 1];
      MembersAre(x, tag, init, v);
      assert nodes == init + [n];
      NodeInLast(x, init, n, tag, v);
      MembersLast(x, tag, Regular(init), n, v);
      assert Regular(init) + [] == Regular(init);
    }
  }

  lemma UniqueMembers(x: Lexicon, tag: string, nodes: seq<Item>, v: string)
    requires TrimLaws(x)
    ensures v in Unique(x, Members(x, tag, Regular(nodes))) <==> NodeIn(x, nodes, tag, v)
  {
    var members := Members(x, tag, Regular(nodes));
    InUnique(x, members, v);
    MembersAre(x, tag, nodes, v);
    if NodeIn(x, nodes, tag, v) {
      var i :| 0 <= i < |members| && members[i] == v;
      assert x.trim(v) == v;
    }
    if Mentions(x, members, v) {
      var i :| 0 <= i < |members| && x.trim(members[i]) == v;
      MembersAre(x, tag, nodes, members[i]);
      assert members[i] in members && x.trim(members[i]) == members[i];
    }
  }

  /** The row of the table has become this group. */
  ghost predicate Resolves(x: Lexicon, nodes: seq<Item>, t: Region, g: Resolved) {
    g.name == t.name && g.auto == t.auto && forall v :: v in g.proxies <==> NodeIn(x, nodes, t.tag, v)
  }

  lemma RowResolves(x: Lexicon, nodes: seq<Item>, t: Region)
    requires TrimLaws(x)
    ensures var proxies := Unique(x, Members(x, t.tag, Regular(nodes)));
            Resolves(x, nodes, t, Resolved(t.name, t.auto, proxies)) && (proxies != [] <==> SomeIn(x, nodes, t.tag))
  {
    var proxies := Unique(x, Members(x, t.tag, Regular(nodes)));
    forall v ensures v in proxies <==> NodeIn(x, nodes, t.tag, v) {
      UniqueMembers(x, t.tag, nodes, v);
    }
    if proxies != [] {
      assert proxies[0] in proxies;
    }
  }

  lemma {:induction false} RowOf(x: Lexicon, table: seq<Region>, nodes: seq<Item>, g: Resolved) returns (t: Region)
    requires TrimLaws(x) && g in Regions(x, table, Regular(nodes))
    ensures t in table && SomeIn(x, nodes, t.tag) && Resolves(x, nodes, t, g)
  {
    var init, last := table[..|table| - 1], table[|table| - 1];
    assert table == init + [last];
    if g in Regions(x, init, Regular(nodes)) {
      t := RowOf(x, init, nodes, g);
    } else {
      t := last;
      RowResolves(x, nodes, t);
    }
  }

  lemma {:induction false} RegionOfRow(x: Lexicon, table: seq<Region>, nodes: seq<Item>, t: Region) returns (g: Resolved)
    requires TrimLaws(x) && t in table && SomeIn(x, nodes, t.tag)
    ensures g in Regions(x, table, Regular(nodes)) && Resolves(x, nodes, t, g)
  {
    var init, last := table[..|table| - 1], table[|table| - 1];
    assert table == init + [last];
    if t in init {
      g := RegionOfRow(x, init, nodes, t);
    } else {
      RowResolves(x, nodes, t);
      g := Resolved(t.name, t.auto, Unique(x, Members(x, t.tag, Regular(nodes))));
    }
  }

  // ---- From the plan to the groups ----

  /** A planned group that is built keeps its kind, and all its members once, in order. */
  lemma BuiltAsPlanned(x: Lexicon, plan: seq<Group>, known: set<string>, h: Group, g: Group)
    requires TrimLaws(x) && Distinct(GroupNames(plan)) && h in plan && g.name == h.name && g in SanitizedAll(x, Live(x, plan), known)
    requires AutoKind(x.lower(h.kind)) ==> forall v | v in Unique(x, h.proxies) :: v in known
    ensures g == h.(proxies := Unique(x, h.proxies))
  {
    var live := Live(x, plan);
    var i :| 0 <= i < |live| && SanitizedAll(x, live, known)[i] == g;
    LiveComesFrom(x, plan, live[i]);
    var from :| from in plan && live[i] == from.(proxies := Unique(x, from.proxies));
    SamePlanned(plan, h, from);
    AllKnownStay(x, live[i], known, h.proxies);
  }

  lemma SamePlanned(plan: seq<Group>, h: Group, g: Group)
    requires Distinct(GroupNames(plan)) && h in plan && g in plan && h.name == g.name
    ensures h == g
  {
    var i :| 0 <= i < |plan| && plan[i] == h;
    var j :| 0 <= j < |plan| && plan[j] == g;
    assert GroupNames(plan)[i] == GroupNames(plan)[j];
  }

  lemma AllKnownStay(x: Lexicon, g: Group, known: set<string>, refs: seq<string>)
    requires TrimLaws(x) && g.proxies == Unique(x, refs)
    requires AutoKind(x.lower(g.kind)) ==> forall v | v in g.proxies :: v in known
    ensures Sanitized(x, g, known) == g
  {
    if AutoKind(x.lower(g.kind)) {
      forall v | v in g.proxies ensures x.trim(v) == v && v != "" {
        UniqueComesFrom(x, refs, v);
      }
      assert forall i | 0 <= i < |g.proxies| :: g.proxies[i] in g.proxies;
      FilteredStays(x, g.proxies, known);
      UniqueIsDistinct(x, refs);
      UniqueOfUnique(x, g.proxies);
    }
  }

  // ---- Lists of references ----

  lemma MentionsEither(x: Lexicon, a: seq<string>, b: seq<string>, v: string)
    ensures Mentions(x, a + b, v) <==> Mentions(x, a, v) || Mentions(x, b, v)
  {
    var all := a + b;
    if Mentions(x, a, v) {
      var i :| 0 <= i < |a| && x.trim(a[i]) == v;
      assert all[i] == a[i];
    }
    if Mentions(x, b, v) {
      var i :| 0 <= i < |b| && x.trim(b[i]) == v;
      assert all[|a| + i] == b[i];
    }
  }

  lemma MentionsOne(x: Lexicon, s: string, v: string)
    ensures Mentions(x, [s], v) <==> x.trim(s) == v
  {
    assert [s][0] == s;
  }

  /** The first choice of a list is the first that is not blank. */
  lemma {:induction false} FirstOfUnique(x: Lexicon, refs: seq<string>)
    requires refs != [] && x.trim(refs[0]) != ""
    ensures Unique(x, refs) != [] && Unique(x, refs)[0] == x.trim(refs[0])
  {
    if |refs| == 1 {
      assert refs[..0] == [];
    } else {
      FirstOfUnique(x, refs[..|refs| - 1]);
    }
  }

  lemma UniqueTwice(x: Lexicon, refs: seq<string>)
    requires TrimLaws(x)
    ensures Unique(x, Unique(x, refs)) == Unique(x, refs)
  {
    forall v | v in Unique(x, refs) ensures x.trim(v) == v && v != "" {
      UniqueComesFrom(x, refs, v);
    }
    UniqueIsDistinct(x, refs);
    UniqueOfUnique(x, Unique(x, refs));
  }

  // ---- The roles ----

  /** The members of a group in which one chooses where traffic goes: the node selection and the two policies, the
      automatic selection and the regions unless the category is about blocking or about domestic and private
      addresses, and in full mode the nodes. */
  ghost predicate Offers(x: Lexicon, f: Layout, nodes: seq<Item>, opt: Options, key: string, v: string) {
    || v == f.names.nodeSelect || v == x.direct || v == x.reject
    || (v == f.names.autoSelect && HasNodes(nodes) && key != "adblock")
    || (key != "adblock" && key != "private" && key != "domestic" && (RegionNamed(x, f, nodes, opt, v) || (opt.full && NodeNamed(x, nodes, v))))
  }

  /** Advertising is blocked first, domestic and private traffic goes out directly first, all else through the selection. */
  ghost predicate FirstChoice(x: Lexicon, f: Layout, key: string, v: string) {
    if key == "adblock" then v == x.reject else if key == "private" || key == "domestic" then v == x.direct else v == f.names.nodeSelect
  }

  ghost predicate Serves(x: Lexicon, f: Layout, nodes: seq<Item>, opt: Options, key: string, g: Group) {
    && g.kind == "select" && g.proxies != [] && FirstChoice(x, f, key, g.proxies[0])
    && (forall v :: v in g.proxies <==> Offers(x, f, nodes, opt, key, v)) && Distinct(g.proxies)
  }

  ghost predicate InSelection(x: Lexicon, f: Layout, nodes: seq<Item>, opt: Options, v: string) {
    v == x.direct || v == x.reject || (HasNodes(nodes) && (v == f.names.autoSelect || RegionNamed(x, f, nodes, opt, v) || NodeNamed(x, nodes, v)))
  }

  /** The node selection: without nodes the two policies, direct first; else the automatic selection first, the two
      policies, all regions and all nodes. */
  ghost predicate Selects(x: Lexicon, f: Layout, nodes: seq<Item>, opt: Options, g: Group) {
    && g.kind == "select" && g.proxies != [] && Distinct(g.proxies)
    && g.proxies[0] == (if HasNodes(nodes) then f.names.autoSelect else x.direct)
    && forall v :: v in g.proxies <==> InSelection(x, f, nodes, opt, v)
  }

  ghost predicate RegionIs(x: Lexicon, nodes: seq<Item>, t: Region, g: Group) {
    && g.kind == "select" && g.proxies != [] && g.proxies[0] == t.auto && Distinct(g.proxies)
    && forall v :: v in g.proxies <==> v == t.auto || v == x.direct || NodeIn(x, nodes, t.tag, v)
  }

  ghost predicate AutoIs(x: Lexicon, nodes: seq<Item>, t: Region, g: Group) {
    g.kind == "url-test" && Distinct(g.proxies) && forall v :: v in g.proxies <==> NodeIn(x, nodes, t.tag, v)
  }

  ghost predicate AutoSelects(x: Lexicon, nodes: seq<Item>, g: Group) {
    g.kind == "url-test" && Distinct(g.proxies) && forall v :: v in g.proxies <==> NodeNamed(x, nodes, v)
  }

  /** The fixed names and policies are what they are after trimming, and not blank. */
  ghost predicate FixedClean(x: Lexicon, f: Layout) {
    && x.trim(x.direct) == x.direct != "" && x.trim(x.reject) == x.reject != ""
    && x.trim(f.names.nodeSelect) == f.names.nodeSelect != "" && x.trim(f.names.autoSelect) == f.names.autoSelect != ""
    && forall t | t in f.regions :: x.trim(t.name) == t.name != "" && x.trim(t.auto) == t.auto != ""
  }

  /** What the builder knows of regions and nodes is what the nodes say. */
  ghost predicate Informed(x: Lexicon, f: Layout, nodes: seq<Item>, opt: Options, regular: seq<string>, regions: seq<string>) {
    && (regular != [] <==> HasNodes(nodes))
    && (forall v :: v != "" && Mentions(x, regular, v) <==> NodeNamed(x, nodes, v))
    && (forall v :: v != "" && Mentions(x, regions, v) <==> RegionNamed(x, f, nodes, opt, v))
  }

  /** What a reference list mentions, beside blanks. */
  ghost predicate Names(x: Lexicon, refs: seq<string>, v: string) {
    v != "" && Mentions(x, refs, v)
  }

  lemma TwoNamed(x: Lexicon, a: string, b: string, v: string)
    ensures Names(x, [a, b], v) <==> v != "" && (x.trim(a) == v || x.trim(b) == v)
  {
    MentionsOne(x, a, v);
    MentionsOne(x, b, v);
    assert [a, b] == [a] + [b];
    MentionsEither(x, [a], [b], v);
  }

  lemma ThreeNamed(x: Lexicon, a: string, b: string, c: string, v: string)
    ensures Names(x, [a, b, c], v) <==> v != "" && (x.trim(a) == v || x.trim(b) == v || x.trim(c) == v)
  {
    MentionsOne(x, a, v);
    MentionsOne(x, b, v);
    MentionsOne(x, c, v);
    assert [a, b, c] == [a] + ([b] + [c]);
    MentionsEither(x, [b], [c], v);
    MentionsEither(x, [a], [b] + [c], v);
  }

  lemma MainIs(x: Lexicon, f: Layout, nodes: seq<Item>, opt: Options, regular: seq<string>, regions: seq<string>, g: Group)
    requires TrimLaws(x) && FixedClean(x, f) && Informed(x, f, nodes, opt, regular, regions)
    requires g.kind == "select" && g.proxies == Unique(x, MainSelect(x, f.names, regular, regions))
    ensures Selects(x, f, nodes, opt, g)
  {
    var refs := MainSelect(x, f.names, regular, regions);
    FirstOfUnique(x, refs);
    UniqueIsDistinct(x, refs);
    forall v ensures v in g.proxies <==> InSelection(x, f, nodes, opt, v) {
      InUnique(x, refs, v);
      if regular == [] {
        TwoNamed(x, x.direct, x.reject, v);
      } else {
        ThreeNamed(x, f.names.autoSelect, x.direct, x.reject, v);
        MentionsEither(x, [f.names.autoSelect, x.direct, x.reject], regions, v);
        MentionsEither(x, [f.names.autoSelect, x.direct, x.reject] + regions, regular, v);
      }
    }
  }

  lemma ShortService(x: Lexicon, f: Layout, nodes: seq<Item>, opt: Options, key: string, full: bool, regular: seq<string>, regions: seq<string>, g: Group)
    requires TrimLaws(x) && FixedClean(x, f) && Informed(x, f, nodes, opt, regular, regions) && key in ["adblock", "private", "domestic"]
    requires g.kind == "select" && g.proxies == Unique(x, Service(x, f.names, key, full, regular, regions))
    ensures Serves(x, f, nodes, opt, key, g)
  {
    var refs := Service(x, f.names, key, full, regular, regions);
    FirstOfUnique(x, refs);
    UniqueIsDistinct(x, refs);
    forall v ensures v in g.proxies <==> Offers(x, f, nodes, opt, key, v) {
      InUnique(x, refs, v);
      ThreeNamed(x, refs[0], refs[1], refs[2], v);
      MentionsOne(x, f.names.autoSelect, v);
      MentionsEither(x, [refs[0], refs[1], refs[2]], refs[3..], v);
      assert refs == [refs[0], refs[1], refs[2]] + refs[3..];
      assert refs[3..] == [] || refs[3..] == [f.names.autoSelect];
    }
  }

  lemma LongService(x: Lexicon, f: Layout, nodes: seq<Item>, opt: Options, key: string, regular: seq<string>, regions: seq<string>, g: Group)
    requires TrimLaws(x) && FixedClean(x, f) && Informed(x, f, nodes, opt, regular, regions) && key !in ["adblock", "private", "domestic"]
    requires g.kind == "select" && g.proxies == Unique(x, Service(x, f.names, key, opt.full, regular, regions))
    ensures Serves(x, f, nodes, opt, key, g)
  {
    var auto, nodeNames := if regular != [] then [f.names.autoSelect] else [], if opt.full then regular else [];
    var refs := [f.names.nodeSelect] + auto + [x.direct, x.reject] + regions + nodeNames;
    assert refs[0] == f.names.nodeSelect;
    UniqueTwice(x, refs);
    FirstOfUnique(x, refs);
    UniqueIsDistinct(x, refs);
    forall v ensures v in g.proxies <==> Offers(x, f, nodes, opt, key, v) {
      InUnique(x, refs, v);
      TwoNamed(x, x.direct, x.reject, v);
      MentionsOne(x, f.names.nodeSelect, v);
      MentionsOne(x, f.names.autoSelect, v);
      MentionsEither(x, [f.names.nodeSelect], auto, v);
      MentionsEither(x, [f.names.nodeSelect] + auto, [x.direct, x.reject], v);
      MentionsEither(x, [f.names.nodeSelect] + auto + [x.direct, x.reject], regions, v);
      MentionsEither(x, [f.names.nodeSelect] + auto + [x.direct, x.reject] + regions, nodeNames, v);
    }
  }

  lemma RegionGroupIs(x: Lexicon, f: Layout, nodes: seq<Item>, t: Region, r: Resolved, g: Group)
    requires TrimLaws(x) && FixedClean(x, f) && t in f.regions && Resolves(x, nodes, t, r) && forall v | v in r.proxies :: x.trim(v) == v != ""
    requires g.kind == "select" && g.proxies == Unique(x, [r.auto, x.direct] + r.proxies)
    ensures RegionIs(x, nodes, t, g)
  {
    var refs := [r.auto, x.direct] + r.proxies;
    FirstOfUnique(x, refs);
    UniqueIsDistinct(x, refs);
    forall v ensures v in g.proxies <==> v == t.auto || v == x.direct || NodeIn(x, nodes, t.tag, v) {
      InUnique(x, refs, v);
      TwoNamed(x, r.auto, x.direct, v);
      MentionsEither(x, [r.auto, x.direct], r.proxies, v);
      MembersMentioned(x, r.proxies, v);
    }
  }

  lemma MembersMentioned(x: Lexicon, refs: seq<string>, v: string)
    requires forall u | u in refs :: x.trim(u) == u != ""
    ensures Names(x, refs, v) <==> v in refs
  {
    if Mentions(x, refs, v) {
      var i :| 0 <= i < |refs| && x.trim(refs[i]) == v;
      assert refs[i] in refs;
    }
  }

  lemma AutoGroupIs(x: Lexicon, nodes: seq<Item>, t: Region, r: Resolved, g: Group)
    requires TrimLaws(x) && Resolves(x, nodes, t, r) && forall v | v in r.proxies :: x.trim(v) == v != ""
    requires g.kind == "url-test" && g.proxies == Unique(x, r.proxies)
    ensures AutoIs(x, nodes, t, g)
  {
    UniqueIsDistinct(x, r.proxies);
    forall v ensures v in g.proxies <==> NodeIn(x, nodes, t.tag, v) {
      InUnique(x, r.proxies, v);
      MembersMentioned(x, r.proxies, v);
    }
  }

  lemma AutoSelectIs(x: Lexicon, f: Layout, nodes: seq<Item>, opt: Options, regular: seq<string>, regions: seq<string>, g: Group)
    requires Informed(x, f, nodes, opt, regular, regions) && g.kind == "url-test" && g.proxies == Unique(x, regular)
    ensures AutoSelects(x, nodes, g)
  {
    UniqueIsDistinct(x, regular);
    forall v ensures v in g.proxies <==> NodeNamed(x, nodes, v) {
      InUnique(x, regular, v);
    }
  }

  // ---- What the builder knows ----

  lemma BuilderIsInformed(x: Lexicon, f: Layout, nodes: seq<Item>, opt: Options)
    requires TrimLaws(x) && FixedClean(x, f)
    ensures Informed(x, f, nodes, opt, NamesOf(Regular(nodes)), RegionNames(ResolvedRegions(x, f, nodes, opt)))
  {
    var regular, regions := NamesOf(Regular(nodes)), ResolvedRegions(x, f, nodes, opt);
    forall v ensures (v != "" && Mentions(x, regular, v) <==> NodeNamed(x, nodes, v)) && (regular != [] <==> HasNodes(nodes)) {
      RegularMention(x, nodes, v);
    }
    forall v ensures v != "" && Mentions(x, RegionNames(regions), v) <==> RegionNamed(x, f, nodes, opt, v) {
      RegionNamesAre(x, f, nodes, opt, v);
    }
  }

  lemma RegionNameKnown(x: Lexicon, f: Layout, nodes: seq<Item>, opt: Options, v: string)
    requires TrimLaws(x) && FixedClean(x, f) && Mentions(x, RegionNames(ResolvedRegions(x, f, nodes, opt)), v)
    ensures RegionNamed(x, f, nodes, opt, v)
  {
    var regions := ResolvedRegions(x, f, nodes, opt);
    var i :| 0 <= i < |regions| && x.trim(RegionNames(regions)[i]) == v;
    assert regions[i] in regions;
    var t := RowOf(x, f.regions, nodes, regions[i]);
    assert Shown(x, f, nodes, opt, t) && t.name == v;
  }

  lemma RegionNameThere(x: Lexicon, f: Layout, nodes: seq<Item>, opt: Options, v: string)
    requires TrimLaws(x) && FixedClean(x, f) && RegionNamed(x, f, nodes, opt, v)
    ensures v != "" && Mentions(x, RegionNames(ResolvedRegions(x, f, nodes, opt)), v)
  {
    var regions := ResolvedRegions(x, f, nodes, opt);
    var t :| Shown(x, f, nodes, opt, t) && t.name == v;
    var g := RegionOfRow(x, f.regions, nodes, t);
    var i :| 0 <= i < |regions| && regions[i] == g;
    assert x.trim(RegionNames(regions)[i]) == v;
  }

  lemma RegionNamesAre(x: Lexicon, f: Layout, nodes: seq<Item>, opt: Options, v: string)
    requires TrimLaws(x) && FixedClean(x, f)
    ensures v != "" && Mentions(x, RegionNames(ResolvedRegions(x, f, nodes, opt)), v) <==> RegionNamed(x, f, nodes, opt, v)
  {
    if Mentions(x, RegionNames(ResolvedRegions(x, f, nodes, opt)), v) {
      RegionNameKnown(x, f, nodes, opt, v);
    }
    if RegionNamed(x, f, nodes, opt, v) {
      RegionNameThere(x, f, nodes, opt, v);
    }
  }

  // ---- What each group contains ----

  /** The plan that the groups are built from. */
  ghost function Planned(x: Lexicon, f: Layout, c: Catalog, nodes: seq<Item>, keys: seq<string>, rules: seq<CustomRule>, opt: Options): seq<Group>
    requires Flat(c, x)
  {
    Plan(x, f.names, Ordered(c, x, keys), ResolvedRegions(x, f, nodes, opt), CreatedFor(x, f, c, nodes, keys, rules, opt), opt.full, NamesOf(Regular(nodes)))
  }

  ghost predicate OnlyNodes(x: Lexicon, nodes: seq<Item>, refs: seq<string>) {
    forall v | v in Unique(x, refs) :: NodeNamed(x, nodes, v)
  }

  lemma NodesAreReal(x: Lexicon, nodes: seq<Item>, v: string)
    requires NodeNamed(x, nodes, v)
    ensures v in RealNames(x, NamesOf(Regular(nodes)))
  {
    RegularMention(x, nodes, v);
    var names := NamesOf(Regular(nodes));
    var i :| 0 <= i < |names| && x.trim(names[i]) == v;
    assert names[i] in names;
  }

  /** A group that is written is the planned group of its name. */
  lemma WrittenAsPlanned(x: Lexicon, f: Layout, c: Catalog, nodes: seq<Item>, keys: seq<string>, rules: seq<CustomRule>, opt: Options, h: Group, g: Group)
    requires Lawful(x) && WellFormed(x, f, c)
    requires h in Planned(x, f, c, nodes, keys, rules, opt) && g in Groups(x, f, c, nodes, keys, rules, opt, [], []).groups && g.name == h.name
    requires h.kind == "select" || OnlyNodes(x, nodes, h.proxies)
    ensures g == h.(proxies := Unique(x, h.proxies))
  {
    var plan, known := Planned(x, f, c, nodes, keys, rules, opt), RealNames(x, NamesOf(Regular(nodes)));
    GroupsFromPlan(x, f, c, nodes, keys, rules, opt);
    PlanIsDistinct(x, f, c, nodes, keys, rules, opt);
    AddAllIsLive(x, plan);
    LiveNames(x, plan);
    if h.kind != "select" {
      forall v | v in Unique(x, h.proxies) ensures v in known {
        NodesAreReal(x, nodes, v);
      }
    }
    BuiltAsPlanned(x, plan, known, h, g);
  }

  lemma NamesAreClean(x: Lexicon, f: Layout, c: Catalog)
    requires Lawful(x) && WellFormed(x, f, c)
    ensures FixedClean(x, f)
  {
    FixedInNames(f.names);
    forall t | t in f.regions ensures x.clean(t.name) && x.clean(t.auto) {
      InFlat(f.regions, t);
    }
  }

  lemma {:induction false} InFlat(table: seq<Region>, t: Region)
    requires t in table
    ensures t.name in Flatten(table) && t.auto in Flatten(table)
  {
    var init, last := table[..|table| - 1], table[|table| - 1];
    assert table == init + [last];
    if t in init {
      InFlat(init, t);
    }
  }

  /** Where the groups of a plan stand. */
  lemma PlanParts(x: Lexicon, f: Names, categories: seq<Category>, regions: seq<Resolved>, created: seq<string>, full: bool, regular: seq<string>, h: Group)
    ensures var names, service := RegionNames(regions), Service(x, f, "", full, regular, RegionNames(regions));
            h == Group(f.nodeSelect, "select", MainSelect(x, f, regular, names)) || h == Group(f.autoSelect, "url-test", regular)
            || h in RegionPlan(x, regions) || h in CategoryPlan(x, f, categories, full, regular, names)
            || (h.name in created && h == Group(h.name, "select", service)) || h == Group(f.finalGroup, "select", service)
            ==> h in Plan(x, f, categories, regions, created, full, regular)
  {
    var service := Service(x, f, "", full, regular, RegionNames(regions));
    if h.name in created && h == Group(h.name, "select", service) {
      var i :| 0 <= i < |created| && created[i] == h.name;
      assert CustomPlan(created, service)[i] == h;
    }
  }

  /** The node selection. */
  lemma SelectionIs(x: Lexicon, f: Layout, c: Catalog, nodes: seq<Item>, keys: seq<string>, rules: seq<CustomRule>, opt: Options, g: Group)
    requires Lawful(x) && WellFormed(x, f, c) && g in Groups(x, f, c, nodes, keys, rules, opt, [], []).groups
    requires g.name == f.names.nodeSelect
    ensures Selects(x, f, nodes, opt, g)
  {
    NamesAreClean(x, f, c);
    BuilderIsInformed(x, f, nodes, opt);
    var regular, regions := NamesOf(Regular(nodes)), RegionNames(ResolvedRegions(x, f, nodes, opt));
    FromPlan(x, f, c, nodes, keys, rules, opt, Group(g.name, "select", MainSelect(x, f.names, regular, regions)), g);
    MainIs(x, f, nodes, opt, regular, regions, g);
  }

  /** The automatic selection. */
  lemma AutomaticIs(x: Lexicon, f: Layout, c: Catalog, nodes: seq<Item>, keys: seq<string>, rules: seq<CustomRule>, opt: Options, g: Group)
    requires Lawful(x) && WellFormed(x, f, c) && g in Groups(x, f, c, nodes, keys, rules, opt, [], []).groups
    requires g.name == f.names.autoSelect
    ensures AutoSelects(x, nodes, g)
  {
    NamesAreClean(x, f, c);
    BuilderIsInformed(x, f, nodes, opt);
    var regular, regions := NamesOf(Regular(nodes)), RegionNames(ResolvedRegions(x, f, nodes, opt));
    RegularIsOnlyNodes(x, nodes);
    FromPlan(x, f, c, nodes, keys, rules, opt, Group(g.name, "url-test", regular), g);
    AutoSelectIs(x, f, nodes, opt, regular, regions, g);
  }

  lemma OtherPlanned(x: Lexicon, f: Layout, c: Catalog, nodes: seq<Item>, keys: seq<string>, rules: seq<CustomRule>, opt: Options, g: Group, key: string)
    requires Lawful(x) && WellFormed(x, f, c) && g in Groups(x, f, c, nodes, keys, rules, opt, [], []).groups
    requires key == "" && (g.name == f.names.finalGroup || g.name in CreatedFor(x, f, c, nodes, keys, rules, opt))
    ensures g.kind == "select"
    ensures g.proxies == Unique(x, Service(x, f.names, key, opt.full, NamesOf(Regular(nodes)), RegionNames(ResolvedRegions(x, f, nodes, opt))))
  {
    FromPlan(x, f, c, nodes, keys, rules, opt,
             Group(g.name, "select", Service(x, f.names, key, opt.full, NamesOf(Regular(nodes)), RegionNames(ResolvedRegions(x, f, nodes, opt)))), g);
  }

  lemma OtherServes(x: Lexicon, f: Layout, nodes: seq<Item>, opt: Options, g: Group, key: string)
    requires TrimLaws(x) && FixedClean(x, f) && key == "" && g.kind == "select"
    requires g.proxies == Unique(x, Service(x, f.names, key, opt.full, NamesOf(Regular(nodes)), RegionNames(ResolvedRegions(x, f, nodes, opt))))
    ensures Serves(x, f, nodes, opt, key, g)
  {
    BuilderIsInformed(x, f, nodes, opt);
    LongService(x, f, nodes, opt, key, NamesOf(Regular(nodes)), RegionNames(ResolvedRegions(x, f, nodes, opt)), g);
  }

  /** The group for the remaining traffic, and those of custom rules, which have no key of their own. */
  lemma OtherGroupsAre(x: Lexicon, f: Layout, c: Catalog, nodes: seq<Item>, keys: seq<string>, rules: seq<CustomRule>, opt: Options, g: Group, key: string)
    requires Lawful(x) && WellFormed(x, f, c) && g in Groups(x, f, c, nodes, keys, rules, opt, [], []).groups
    requires key == "" && (g.name == f.names.finalGroup || g.name in CreatedFor(x, f, c, nodes, keys, rules, opt))
    ensures Serves(x, f, nodes, opt, key, g)
  {
    OtherPlanned(x, f, c, nodes, keys, rules, opt, g, key);
    NamesAreClean(x, f, c);
    OtherServes(x, f, nodes, opt, g, key);
  }

  lemma RegularIsOnlyNodes(x: Lexicon, nodes: seq<Item>)
    ensures OnlyNodes(x, nodes, NamesOf(Regular(nodes)))
  {
    forall v | v in Unique(x, NamesOf(Regular(nodes))) ensures NodeNamed(x, nodes, v) {
      InUnique(x, NamesOf(Regular(nodes)), v);
      RegularMention(x, nodes, v);
    }
  }

  lemma FromPlan(x: Lexicon, f: Layout, c: Catalog, nodes: seq<Item>, keys: seq<string>, rules: seq<CustomRule>, opt: Options, h: Group, g: Group)
    requires Lawful(x) && WellFormed(x, f, c) && g in Groups(x, f, c, nodes, keys, rules, opt, [], []).groups && g.name == h.name
    requires h.kind == "select" || OnlyNodes(x, nodes, h.proxies)
    requires var regular, regions, created := NamesOf(Regular(nodes)), ResolvedRegions(x, f, nodes, opt), CreatedFor(x, f, c, nodes, keys, rules, opt);
             var service := Service(x, f.names, "", opt.full, regular, RegionNames(regions));
             || h == Group(f.names.nodeSelect, "select", MainSelect(x, f.names, regular, RegionNames(regions)))
             || h == Group(f.names.autoSelect, "url-test", regular) || h in RegionPlan(x, regions)
             || h in CategoryPlan(x, f.names, Ordered(c, x, keys), opt.full, regular, RegionNames(regions))
             || (h.name in created && h == Group(h.name, "select", service)) || h == Group(f.names.finalGroup, "select", service)
    ensures g == h.(proxies := Unique(x, h.proxies))
  {
    PlanParts(x, f.names, Ordered(c, x, keys), ResolvedRegions(x, f, nodes, opt), CreatedFor(x, f, c, nodes, keys, rules, opt), opt.full, NamesOf(Regular(nodes)), h);
    WrittenAsPlanned(x, f, c, nodes, keys, rules, opt, h, g);
  }

  /** The group of an enabled category. */
  lemma CategoryGroupsAre(x: Lexicon, f: Layout, c: Catalog, nodes: seq<Item>, keys: seq<string>, rules: seq<CustomRule>, opt: Options,
                          g: Group, category: Category)
    requires Lawful(x) && WellFormed(x, f, c) && g in Groups(x, f, c, nodes, keys, rules, opt, [], []).groups
    requires category in Ordered(c, x, keys) && MakesGroup(x, f, category) && g.name == category.groupName
    ensures Serves(x, f, nodes, opt, category.key, g)
  {
    NamesAreClean(x, f, c);
    BuilderIsInformed(x, f, nodes, opt);
    var regular, regions := NamesOf(Regular(nodes)), RegionNames(ResolvedRegions(x, f, nodes, opt));
    CategoryPlanHas(x, f, Ordered(c, x, keys), opt.full, regular, regions, category);
    FromPlan(x, f, c, nodes, keys, rules, opt, Group(g.name, "select", Service(x, f.names, category.key, opt.full, regular, regions)), g);
    if category.key in ["adblock", "private", "domestic"] {
      ShortService(x, f, nodes, opt, category.key, opt.full, regular, regions, g);
    } else {
      LongService(x, f, nodes, opt, category.key, regular, regions, g);
    }
  }

  lemma RegionPlanned(x: Lexicon, regions: seq<Resolved>, r: Resolved)
    requires r in regions
    ensures Group(r.name, "select", [r.auto, x.direct] + r.proxies) in RegionPlan(x, regions)
    ensures Group(r.auto, "url-test", r.proxies) in RegionPlan(x, regions)
  {
    var i :| 0 <= i < |regions| && regions[i] == r;
    RegionPlanHas(x, regions, i);
  }

  lemma RegionOf(x: Lexicon, f: Layout, nodes: seq<Item>, opt: Options, t: Region) returns (r: Resolved)
    requires TrimLaws(x) && Shown(x, f, nodes, opt, t)
    ensures var plan := RegionPlan(x, ResolvedRegions(x, f, nodes, opt));
            Group(r.name, "select", [r.auto, x.direct] + r.proxies) in plan && Group(r.auto, "url-test", r.proxies) in plan
    ensures Resolves(x, nodes, t, r) && (forall v | v in r.proxies :: x.trim(v) == v != "") && OnlyNodes(x, nodes, r.proxies)
  {
    r := RegionOfRow(x, f.regions, nodes, t);
    RegionPlanned(x, ResolvedRegions(x, f, nodes, opt), r);
    RegionIsClean(x, nodes, t, r);
  }

  /** The group of a region with nodes, and its automatic one. */
  lemma RegionGroupsAre(x: Lexicon, f: Layout, c: Catalog, nodes: seq<Item>, keys: seq<string>, rules: seq<CustomRule>, opt: Options, g: Group, t: Region)
    requires Lawful(x) && WellFormed(x, f, c) && g in Groups(x, f, c, nodes, keys, rules, opt, [], []).groups
    requires Shown(x, f, nodes, opt, t) && g.name == t.name
    ensures RegionIs(x, nodes, t, g)
  {
    NamesAreClean(x, f, c);
    var r := RegionOf(x, f, nodes, opt, t);
    FromPlan(x, f, c, nodes, keys, rules, opt, Group(r.name, "select", [r.auto, x.direct] + r.proxies), g);
    RegionGroupIs(x, f, nodes, t, r, g);
  }

  lemma RegionAutosAre(x: Lexicon, f: Layout, c: Catalog, nodes: seq<Item>, keys: seq<string>, rules: seq<CustomRule>, opt: Options, g: Group, t: Region)
    requires Lawful(x) && WellFormed(x, f, c) && g in Groups(x, f, c, nodes, keys, rules, opt, [], []).groups
    requires Shown(x, f, nodes, opt, t) && g.name == t.auto
    ensures AutoIs(x, nodes, t, g)
  {
    var r := RegionOf(x, f, nodes, opt, t);
    FromPlan(x, f, c, nodes, keys, rules, opt, Group(r.auto, "url-test", r.proxies), g);
    AutoGroupIs(x, nodes, t, r, g);
  }

  lemma RegionIsClean(x: Lexicon, nodes: seq<Item>, t: Region, r: Resolved)
    requires TrimLaws(x) && Resolves(x, nodes, t, r)
    ensures (forall v | v in r.proxies :: x.trim(v) == v != "") && OnlyNodes(x, nodes, r.proxies)
  {
    forall v | v in Unique(x, r.proxies) ensures NodeNamed(x, nodes, v) {
      InUnique(x, r.proxies, v);
      var i :| 0 <= i < |r.proxies| && x.trim(r.proxies[i]) == v;
      assert r.proxies[i] in r.proxies;
    }
  }

  // ---- The user's own groups ----

  lemma {:induction false} FilteredIff(x: Lexicon, refs: seq<string>, known: set<string>, v: string)
    ensures v in Filtered(x, refs, known) <==> v != "" && v in known && Mentions(x, refs, v)
  {
    if refs != [] {
      FilteredIff(x, refs[..|refs| - 1], known, v);
      MentionsLast(x, refs, v);
    }
  }

  lemma RealIff(x: Lexicon, nodes: seq<Item>, v: string)
    ensures v in RealNames(x, NamesOf(Regular(nodes))) <==> NodeNamed(x, nodes, v)
  {
    RegularMention(x, nodes, v);
    var names := NamesOf(Regular(nodes));
    if n :| n in names && x.trim(n) == v && v != "" {
      var i :| 0 <= i < |names| && names[i] == n;
    }
    if NodeNamed(x, nodes, v) {
      NodesAreReal(x, nodes, v);
    }
  }

  /** A group of a kind that chooses by itself keeps exactly the nodes among its members; other groups stay as they are. */
  lemma AutomaticKeepsNodes(x: Lexicon, nodes: seq<Item>, g: Group, v: string)
    requires TrimLaws(x)
    ensures var kind, out := x.lower(g.kind), Sanitized(x, g, RealNames(x, NamesOf(Regular(nodes))));
            && out.name == g.name && out.kind == g.kind
            && (kind == "url-test" || kind == "fallback" || kind == "load-balance" ==>
                  (v in out.proxies <==> NodeNamed(x, nodes, v) && Mentions(x, g.proxies, v)))
            && (kind != "url-test" && kind != "fallback" && kind != "load-balance" ==> out == g)
  {
    var known := RealNames(x, NamesOf(Regular(nodes)));
    var kept := Filtered(x, g.proxies, known);
    FilteredElements(x, g.proxies, known);
    FilteredIff(x, g.proxies, known, v);
    RealIff(x, nodes, v);
    InUnique(x, kept, v);
    if Mentions(x, kept, v) {
      var i :| 0 <= i < |kept| && x.trim(kept[i]) == v;
      assert kept[i] in kept;
    }
    if v in kept {
      var i :| 0 <= i < |kept| && kept[i] == v;
      assert x.trim(kept[i]) == v;
    }
  }
}
