/** What the group builder builds, for any well-formed catalog: which names its groups have, that they never
    collide, and what the groups refer to. */
module PlannedGroups {
  import opened Common
  import opened RuleText
  import opened RuleCatalog
  import opened ConfigLint
  import opened CustomRules
  import opened ProxyGroups

  // ---- Well-formed tables ----

  function Flatten(table: seq<Region>): seq<string> {
    if table == [] then [] else Flatten(table[..|table| - 1]) + [table[|table| - 1].auto, table[|table| - 1].name]
  }

  function FixedNames(f: Names): seq<string> {
    [f.nodeSelect, f.autoSelect, f.finalGroup]
  }

  ghost predicate NamesApart(x: Lexicon, f: Layout) {
    && Distinct(FixedNames(f.names)) && Distinct(Flatten(f.regions))
    && (forall n | n in Flatten(f.regions) :: x.clean(n) && n !in FixedNames(f.names))
    && (forall n | n in FixedNames(f.names) :: x.clean(n))
    && !AutoKind(x.lower("select"))
  }

  /** The category names a group of its own: not blank, no built-in policy and none of the fixed groups. */
  predicate MakesGroup(x: Lexicon, f: Layout, c: Category) {
    var n := x.trim(c.groupName);
    && n != "" && n != x.direct && n != x.reject && n != f.names.nodeSelect && n != f.names.autoSelect && n != f.names.finalGroup
    && !f.names.isProxy(n)
  }

  /** Group names that make groups are unlike each other and unlike every region group. */
  ghost predicate CategoriesApart(x: Lexicon, f: Layout, c: Catalog) {
    && Distinct(c.order)
    && (forall k | k in c.table && MakesGroup(x, f, c.table[k]) :: x.clean(c.table[k].groupName) && c.table[k].groupName !in Flatten(f.regions))
    && (forall k, l | k in c.table && l in c.table && k != l && MakesGroup(x, f, c.table[k]) :: c.table[k].groupName != c.table[l].groupName)
  }

  ghost predicate HasProvider(c: Category, name: string) {
    exists p :: p in c.providers && p.name == name
  }

  /** A rule uses a provider of its category and points at a built-in target, the node selection or its own group. */
  ghost predicate GoodSpec(x: Lexicon, f: Layout, c: Category, s: Spec) {
    && x.clean(s.provider) && x.clean(s.target) && HasProvider(c, s.provider)
    && (x.builtin(s.target) || s.target == f.names.nodeSelect || (s.target == c.groupName && MakesGroup(x, f, c)))
  }

  ghost predicate RulesGood(x: Lexicon, f: Layout, c: Catalog) {
    && (forall k, s | k in c.table && s in c.table[k].rules :: GoodSpec(x, f, c.table[k], s))
    && ("domestic" in c.table ==> GoodSpec(x, f, c.table["domestic"], Spec(f.cnProvider, f.domesticTarget, false)))
  }

  ghost predicate Listed(c: Catalog, p: Provider) {
    exists k :: k in c.table && p in c.table[k].providers
  }

  ghost predicate ProvidersGood(x: Lexicon, c: Catalog) {
    && (forall p | Listed(c, p) :: !BadShape(x, p))
    && (forall p, q | Listed(c, p) && Listed(c, q) && p.path != "" && p.path == q.path :: p.name == q.name)
  }

  ghost predicate WellFormed(x: Lexicon, f: Layout, c: Catalog) {
    && Flat(c, x) && SelfLast(c) && KeysNormal(c, x) && OrdersCover(c)
    && NamesApart(x, f) && CategoriesApart(x, f, c) && RulesGood(x, f, c) && ProvidersGood(x, c)
  }

  // ---- Group names are distinct ----

  lemma DistinctConcat(a: seq<string>, b: seq<string>)
    requires Distinct(a) && Distinct(b) && forall n | n in a :: n !in b
    ensures Distinct(a + b)
  {
    assert forall i | 0 <= i < |a| :: a[i] in a;
    assert forall i | 0 <= i < |b| :: b[i] in b;
  }

  lemma {:induction false} RegionPlanNames(x: Lexicon, table: seq<Region>, nodes: seq<Item>)
    requires Distinct(Flatten(table))
    ensures var names := GroupNames(RegionPlan(x, Regions(x, table, nodes)));
            Distinct(names) && forall n | n in names :: n in Flatten(table)
  {
    if table != [] {
      var init, g := table[..|table| - 1], table[|table| - 1];
      FlattenLast(table);
      RegionPlanNames(x, init, nodes);
      var regions := Regions(x, init, nodes);
      var proxies := Unique(x, Members(x, g.tag, nodes));
      if proxies == [] {
        assert regions + [] == regions;
      } else {
        RegionPlanLast(x, regions, Resolved(g.name, g.auto, proxies));
        DistinctConcat(GroupNames(RegionPlan(x, regions)), [g.auto, g.name]);
      }
    }
  }

  lemma FlattenLast(table: seq<Region>)
    requires table != [] && Distinct(Flatten(table))
    ensures var init, g := Flatten(table[..|table| - 1]), table[|table| - 1];
            Distinct(init) && g.auto != g.name && g.auto !in init && g.name !in init
  {
    DistinctSplit(Flatten(table[..|table| - 1]), table[|table| - 1].auto, table[|table| - 1].name);
  }

  lemma DistinctSplit(a: seq<string>, m: string, n: string)
    requires Distinct(a + [m, n])
    ensures Distinct(a) && m != n && m !in a && n !in a
  {
    assert a + [m, n] == a + [m] + [n];
    DistinctLast(a + [m], n);
    DistinctLast(a, m);
    assert m in a + [m] && forall v | v in a :: v in a + [m];
  }

  lemma RegionPlanLast(x: Lexicon, regions: seq<Resolved>, g: Resolved)
    ensures GroupNames(RegionPlan(x, regions + [g])) == GroupNames(RegionPlan(x, regions)) + [g.auto, g.name]
  {
  }

  /** A name that some category in the order gives its group. */
  ghost predicate NamedBy(x: Lexicon, f: Layout, c: Catalog, order: seq<string>, n: string) {
    exists k :: k in order && k in c.table && MakesGroup(x, f, c.table[k]) && c.table[k].groupName == n
  }

  lemma NamedByLast(x: Lexicon, f: Layout, c: Catalog, order: seq<string>, k: string)
    ensures forall n :: NamedBy(x, f, c, order, n) ==> NamedBy(x, f, c, order + [k], n)
    ensures k in c.table && MakesGroup(x, f, c.table[k]) ==> NamedBy(x, f, c, order + [k], c.table[k].groupName)
  {
  }

  /** The next category's group name is new. */
  lemma NextNameIsNew(x: Lexicon, f: Layout, c: Catalog, order: seq<string>, k: string)
    requires CategoriesApart(x, f, c) && k !in order && k in c.table && MakesGroup(x, f, c.table[k])
    ensures !NamedBy(x, f, c, order, c.table[k].groupName)
  {
  }

  /** The group names of the enabled categories, in order. */
  function CategoryNames(x: Lexicon, f: Layout, categories: seq<Category>): seq<string> {
    if categories == [] then []
    else
      CategoryNames(x, f, categories[..|categories| - 1])
        + if MakesGroup(x, f, categories[|categories| - 1]) then [categories[|categories| - 1].groupName] else []
  }

  lemma {:induction false} CategoryNamesAre(x: Lexicon, f: Layout, categories: seq<Category>, full: bool, regular: seq<string>, regions: seq<string>)
    ensures GroupNames(CategoryPlan(x, f.names, categories, full, regular, regions)) == CategoryNames(x, f, categories)
  {
    if categories != [] {
      var init, c := categories[..|categories| - 1], categories[|categories| - 1];
      CategoryNamesAre(x, f, init, full, regular, regions);
      assert categories == init + [c];
    }
  }

  lemma {:induction false} CategoryNamesDistinct(x: Lexicon, f: Layout, c: Catalog, enabled: seq<string>, order: seq<string>)
    requires CategoriesApart(x, f, c) && Distinct(order)
    ensures var names := CategoryNames(x, f, InOrder(c, enabled, order));
            Distinct(names) && forall n | n in names :: NamedBy(x, f, c, order, n)
  {
    if order != [] {
      var init, k := order[..|order| - 1], order[|order| - 1];
      CategoryNamesDistinct(x, f, c, enabled, init);
      assert order == init + [k];
      DistinctLast(init, k);
      NamedByLast(x, f, c, init, k);
      var categories := InOrder(c, enabled, init);
      if k in enabled && k in c.table {
        assert (categories + [c.table[k]])[..|categories|] == categories;
        if MakesGroup(x, f, c.table[k]) {
          NextNameIsNew(x, f, c, init, k);
          DistinctLast(CategoryNames(x, f, categories), c.table[k].groupName);
        } else {
          assert CategoryNames(x, f, categories) + [] == CategoryNames(x, f, categories);
        }
      } else {
        assert categories + [] == categories;
      }
    }
  }

  lemma {:induction false} LiveNames(x: Lexicon, plan: seq<Group>)
    ensures forall n | n in GroupNames(Live(x, plan)) :: n in GroupNames(plan)
    ensures Distinct(GroupNames(plan)) ==> Distinct(GroupNames(Live(x, plan)))
  {
    if plan != [] {
      var init, g := plan[..|plan| - 1], plan[|plan| - 1];
      LiveNames(x, init);
      assert plan == init + [g];
      GroupNamesLast(init, g);
      DistinctLast(GroupNames(init), g.name);
      var proxies := Unique(x, g.proxies);
      if proxies != [] {
        GroupNamesLast(Live(x, init), g.(proxies := proxies));
        DistinctLast(GroupNames(Live(x, init)), g.name);
      } else {
        assert Live(x, init) + [] == Live(x, init);
      }
    }
  }

  lemma PlanNamesAre(x: Lexicon, f: Names, categories: seq<Category>, regions: seq<Resolved>, created: seq<string>, full: bool, regular: seq<string>)
    ensures GroupNames(Plan(x, f, categories, regions, created, full, regular))
            == [f.nodeSelect, f.autoSelect] + GroupNames(RegionPlan(x, regions))
               + GroupNames(CategoryPlan(x, f, categories, full, regular, RegionNames(regions))) + created + [f.finalGroup]
  {
  }

  lemma NamesJoin(f: Names, a: seq<string>, b: seq<string>, c: seq<string>)
    requires Distinct(FixedNames(f)) && Distinct(a) && Distinct(b) && Distinct(c)
    requires (forall n | n in b :: n !in a) && (forall n | n in c :: n !in a && n !in b)
    requires (forall n | n in a :: n !in FixedNames(f)) && (forall n | n in b :: n !in FixedNames(f)) && (forall n | n in c :: n !in FixedNames(f))
    ensures Distinct([f.nodeSelect, f.autoSelect] + a + b + c + [f.finalGroup])
  {
    var front := [f.nodeSelect, f.autoSelect];
    assert FixedNames(f)[0] == f.nodeSelect && FixedNames(f)[1] == f.autoSelect && FixedNames(f)[2] == f.finalGroup;
    assert forall n | n in front :: n in FixedNames(f) && n != f.finalGroup;
    DistinctConcat(front, a);
    DistinctConcat(front + a, b);
    DistinctConcat(front + a + b, c);
    DistinctLast(front + a + b + c, f.finalGroup);
  }

  /** Names that nothing the generator names by itself has. */
  ghost predicate NewNames(x: Lexicon, f: Layout, categories: seq<Category>, regions: seq<Resolved>, created: seq<string>) {
    && Distinct(created)
    && (forall n | n in created :: n !in FixedNames(f.names) && n !in GroupNames(RegionPlan(x, regions)) && n !in CategoryNames(x, f, categories))
  }

  /** Without the user's own groups no two planned groups share a name, so building the groups cannot fail. */
  lemma PlanNames(x: Lexicon, f: Layout, c: Catalog, keys: seq<string>, regions: seq<Resolved>, created: seq<string>, full: bool,
                  regular: seq<string>, nodes: seq<Item>)
    requires WellFormed(x, f, c) && TrimLaws(x) && (regions == [] || regions == Regions(x, f.regions, nodes))
    requires NewNames(x, f, Ordered(c, x, keys), regions, created)
    ensures Distinct(GroupNames(Plan(x, f.names, Ordered(c, x, keys), regions, created, full, regular)))
  {
    var categories, names := Ordered(c, x, keys), RegionNames(regions);
    var p2, p3 := GroupNames(RegionPlan(x, regions)), CategoryNames(x, f, categories);
    RegionPlanNames(x, f.regions, nodes);
    assert regions == [] ==> p2 == [];
    CategoryNamesAre(x, f, categories, full, regular, names);
    CategoryNamesDistinct(x, f, c, NormalizeKeys(c, x, keys), c.order);
    PlanNamesAre(x, f.names, categories, regions, created, full, regular);
    NamesJoin(f.names, p2, p3, created);
  }

  // ---- What groups refer to ----

  ghost predicate IsRegion(regions: seq<Resolved>, ref: string) {
    exists i :: 0 <= i < |regions| && (regions[i].name == ref || regions[i].auto == ref)
  }

  /** The references a planned group may have. */
  ghost predicate Allowed(x: Lexicon, f: Names, regular: seq<string>, regions: seq<Resolved>, ref: string) {
    || ref == "" || ref == x.direct || ref == x.reject || ref == f.nodeSelect
    || (regular != [] && ref == f.autoSelect) || IsRegion(regions, ref) || Mentions(x, regular, ref)
  }

  ghost predicate AllAllowed(x: Lexicon, f: Names, regular: seq<string>, regions: seq<Resolved>, refs: seq<string>) {
    forall ref | ref in refs :: Allowed(x, f, regular, regions, x.trim(ref))
  }

  /** Trimming leaves the generator's own names alone. */
  ghost predicate Settled(x: Lexicon, f: Names, regions: seq<Resolved>) {
    && x.trim(x.direct) == x.direct && x.trim(x.reject) == x.reject
    && (forall n | n in FixedNames(f) :: x.trim(n) == n)
    && (forall i | 0 <= i < |regions| :: x.trim(regions[i].name) == regions[i].name && x.trim(regions[i].auto) == regions[i].auto)
    && (forall s: string :: x.trim(x.trim(s)) == x.trim(s))
  }

  ghost predicate RegionsMention(x: Lexicon, regular: seq<string>, regions: seq<Resolved>) {
    forall i, v | 0 <= i < |regions| && v in regions[i].proxies :: Mentions(x, regular, x.trim(v))
  }

  lemma UniqueAllowed(x: Lexicon, f: Names, regular: seq<string>, regions: seq<Resolved>, refs: seq<string>)
    requires Settled(x, f, regions) && AllAllowed(x, f, regular, regions, refs)
    ensures AllAllowed(x, f, regular, regions, Unique(x, refs))
  {
  }

  lemma RegularAllowed(x: Lexicon, f: Names, regular: seq<string>, regions: seq<Resolved>)
    ensures AllAllowed(x, f, regular, regions, regular)
  {
  }

  lemma RegionNamesAllowed(x: Lexicon, f: Names, regular: seq<string>, regions: seq<Resolved>)
    requires Settled(x, f, regions)
    ensures AllAllowed(x, f, regular, regions, RegionNames(regions))
  {
  }

  lemma FixedInNames(f: Names)
    ensures f.nodeSelect in FixedNames(f) && f.autoSelect in FixedNames(f) && f.finalGroup in FixedNames(f)
  {
  }

  lemma ServiceAllowed(x: Lexicon, f: Names, key: string, full: bool, regular: seq<string>, regions: seq<Resolved>)
    requires Settled(x, f, regions)
    ensures AllAllowed(x, f, regular, regions, Service(x, f, key, full, regular, RegionNames(regions)))
  {
    FixedInNames(f);
    match key
    case "adblock" =>
    case "private" =>
    case "domestic" =>
    case _ => DefaultAllowed(x, f, full, regular, regions);
  }

  lemma DefaultAllowed(x: Lexicon, f: Names, full: bool, regular: seq<string>, regions: seq<Resolved>)
    requires Settled(x, f, regions)
    ensures var fixed := [f.nodeSelect] + (if regular != [] then [f.autoSelect] else []) + [x.direct, x.reject];
            AllAllowed(x, f, regular, regions, Unique(x, fixed + RegionNames(regions) + if full then regular else []))
  {
    FixedInNames(f);
    RegularAllowed(x, f, regular, regions);
    RegionNamesAllowed(x, f, regular, regions);
    var fixed := [f.nodeSelect] + (if regular != [] then [f.autoSelect] else []) + [x.direct, x.reject];
    var own := if full then regular else [];
    AllowedConcat(x, f, regular, regions, fixed, RegionNames(regions));
    AllowedConcat(x, f, regular, regions, fixed + RegionNames(regions), own);
    UniqueAllowed(x, f, regular, regions, fixed + RegionNames(regions) + own);
  }

  lemma AllowedConcat(x: Lexicon, f: Names, regular: seq<string>, regions: seq<Resolved>, a: seq<string>, b: seq<string>)
    requires AllAllowed(x, f, regular, regions, a) && AllAllowed(x, f, regular, regions, b)
    ensures AllAllowed(x, f, regular, regions, a + b)
  {
  }

  lemma {:induction false} RegionPlanAllowed(x: Lexicon, f: Names, regular: seq<string>, regions: seq<Resolved>, part: seq<Resolved>)
    requires Settled(x, f, regions) && RegionsMention(x, regular, regions) && part <= regions
    ensures forall g | g in RegionPlan(x, part) :: AllAllowed(x, f, regular, regions, g.proxies)
  {
    if part != [] {
      var last := |part| - 1;
      RegionPlanAllowed(x, f, regular, regions, part[..last]);
      var g := part[last];
      assert regions[last] == g;
      assert forall v | v in g.proxies :: Mentions(x, regular, x.trim(v));
      assert IsRegion(regions, g.auto);
    }
  }

  lemma {:induction false} CategoryPlanAllowed(x: Lexicon, f: Names, categories: seq<Category>, full: bool, regular: seq<string>, regions: seq<Resolved>)
    requires Settled(x, f, regions)
    ensures forall g | g in CategoryPlan(x, f, categories, full, regular, RegionNames(regions)) :: AllAllowed(x, f, regular, regions, g.proxies)
  {
    if categories != [] {
      CategoryPlanAllowed(x, f, categories[..|categories| - 1], full, regular, regions);
      ServiceAllowed(x, f, categories[|categories| - 1].key, full, regular, regions);
    }
  }

  /** Every reference in the plan is allowed. */
  lemma PlanAllowed(x: Lexicon, f: Names, categories: seq<Category>, regions: seq<Resolved>, created: seq<string>, full: bool, regular: seq<string>)
    requires Settled(x, f, regions) && RegionsMention(x, regular, regions)
    ensures forall g | g in Plan(x, f, categories, regions, created, full, regular) :: AllAllowed(x, f, regular, regions, g.proxies)
  {
    RegularAllowed(x, f, regular, regions);
    RegionPlanAllowed(x, f, regular, regions, regions);
    CategoryPlanAllowed(x, f, categories, full, regular, regions);
    ServiceAllowed(x, f, "", full, regular, regions);
  }

  lemma {:induction false} MembersMention(x: Lexicon, tag: string, nodes: seq<Item>)
    ensures forall v | v in Members(x, tag, nodes) :: v != "" && Mentions(x, NamesOf(nodes), v)
  {
    if nodes != [] {
      var init, n := nodes[..|nodes| - 1], nodes[|nodes| - 1];
      MembersMention(x, tag, init);
      assert NamesOf(nodes)[..|nodes| - 1] == NamesOf(init);
      forall v ensures Mentions(x, NamesOf(nodes), v) <==> Mentions(x, NamesOf(init), v) || x.trim(n.name) == v {
        MentionsLast(x, NamesOf(nodes), v);
      }
    }
  }

  /** A resolved region comes from the table, is not empty and contains regular nodes only. */
  ghost predicate SoundRegion(x: Lexicon, table: seq<Region>, regular: seq<string>, g: Resolved) {
    && g.name in Flatten(table) && g.auto in Flatten(table) && g.proxies != []
    && forall v | v in g.proxies :: x.trim(v) == v && v != "" && Mentions(x, regular, v)
  }

  lemma MembersAreSound(x: Lexicon, tag: string, nodes: seq<Item>)
    requires TrimLaws(x)
    ensures forall v | v in Unique(x, Members(x, tag, nodes)) :: x.trim(v) == v && v != "" && Mentions(x, NamesOf(nodes), v)
  {
    var members := Members(x, tag, nodes);
    MembersMention(x, tag, nodes);
    forall v | v in Unique(x, members) ensures x.trim(v) == v && v != "" && Mentions(x, NamesOf(nodes), v) {
      UniqueComesFrom(x, members, v);
      var m :| m in members && x.trim(m) == v;
      var j :| 0 <= j < |NamesOf(nodes)| && x.trim(NamesOf(nodes)[j]) == m;
    }
  }

  lemma {:induction false} RegionsAreSound(x: Lexicon, table: seq<Region>, nodes: seq<Item>)
    requires TrimLaws(x)
    ensures forall g | g in Regions(x, table, nodes) :: SoundRegion(x, table, NamesOf(nodes), g)
  {
    if table != [] {
      var init, g := table[..|table| - 1], table[|table| - 1];
      RegionsAreSound(x, init, nodes);
      MembersAreSound(x, g.tag, nodes);
      assert Flatten(table) == Flatten(init) + [g.auto, g.name];
      forall r | r in Regions(x, table, nodes) ensures SoundRegion(x, table, NamesOf(nodes), r) {
        if r in Regions(x, init, nodes) {
          assert SoundRegion(x, init, NamesOf(nodes), r);
        }
      }
    }
  }

  // ---- From the plan to the groups ----

  lemma NotEmpty(x: Lexicon, refs: seq<string>, ref: string)
    requires ref in refs && x.trim(ref) != ""
    ensures x.trim(ref) in Unique(x, refs)
  {
  }

  lemma {:induction false} LiveComesFrom(x: Lexicon, plan: seq<Group>, g: Group)
    requires g in Live(x, plan)
    ensures exists h :: h in plan && g == h.(proxies := Unique(x, h.proxies))
  {
    var init, last := plan[..|plan| - 1], plan[|plan| - 1];
    assert plan == init + [last];
    if g in Live(x, init) {
      LiveComesFrom(x, init, g);
    }
  }

  lemma {:induction false} LiveHas(x: Lexicon, plan: seq<Group>, h: Group)
    requires h in plan && Unique(x, h.proxies) != []
    ensures h.(proxies := Unique(x, h.proxies)) in Live(x, plan)
  {
    var init, last := plan[..|plan| - 1], plan[|plan| - 1];
    assert plan == init + [last];
    if h in init {
      LiveHas(x, init, h);
    }
  }

  lemma {:induction false} FilteredComesFrom(x: Lexicon, refs: seq<string>, known: set<string>, ref: string)
    requires ref in Filtered(x, refs, known)
    ensures exists r :: r in refs && x.trim(r) == ref
  {
    var init, last := refs[..|refs| - 1], refs[|refs| - 1];
    assert refs == init + [last];
    if ref in Filtered(x, init, known) {
      FilteredComesFrom(x, init, known, ref);
    }
  }

  /** Sanitising keeps names and only drops members. */
  lemma SanitizedComesFrom(x: Lexicon, h: Group, known: set<string>, ref: string)
    requires TrimLaws(x) && ref in Sanitized(x, h.(proxies := Unique(x, h.proxies)), known).proxies
    ensures ref != "" && exists r :: r in h.proxies && x.trim(r) == ref
  {
    var refs := Unique(x, h.proxies);
    if AutoKind(x.lower(h.kind)) {
      var kept := Filtered(x, refs, known);
      InUnique(x, kept, ref);
      var i :| 0 <= i < |kept| && x.trim(kept[i]) == ref;
      FilteredComesFrom(x, refs, known, kept[i]);
      var r :| r in refs && x.trim(r) == kept[i];
      assert r in refs && x.trim(r) == ref;
      UniqueComesFrom(x, h.proxies, r);
    } else {
      UniqueComesFrom(x, h.proxies, ref);
    }
  }

  lemma UniqueComesFrom(x: Lexicon, refs: seq<string>, v: string)
    requires TrimLaws(x) && v in Unique(x, refs)
    ensures v != "" && x.trim(v) == v && exists r :: r in refs && x.trim(r) == v
  {
  }

  lemma SanitizedNames(x: Lexicon, groups: seq<Group>, known: set<string>)
    ensures GroupNames(SanitizedAll(x, groups, known)) == GroupNames(groups)
  {
  }

  lemma NameOfGroup(groups: seq<Group>, g: Group)
    requires g in groups
    ensures g.name in GroupNames(groups)
  {
    var i :| 0 <= i < |groups| && groups[i] == g;
    assert GroupNames(groups)[i] == g.name;
  }

  /** A planned group with a member that is not blank is there by name. */
  lemma Present(x: Lexicon, plan: seq<Group>, known: set<string>, h: Group, ref: string)
    requires h in plan && ref in h.proxies && x.trim(ref) != ""
    ensures h.name in GroupNames(SanitizedAll(x, Live(x, plan), known))
  {
    NotEmpty(x, h.proxies, ref);
    LiveHas(x, plan, h);
    NameOfGroup(Live(x, plan), h.(proxies := Unique(x, h.proxies)));
    SanitizedNames(x, Live(x, plan), known);
  }

  // ---- Every reference is one of the allowed ones ----

  ghost predicate RefsAllowed(x: Lexicon, f: Names, regular: seq<string>, regions: seq<Resolved>, groups: seq<Group>) {
    forall g, ref | g in groups && ref in g.proxies :: ref != "" && Allowed(x, f, regular, regions, ref)
  }

  lemma GroupsAllowed(x: Lexicon, f: Names, regular: seq<string>, regions: seq<Resolved>, plan: seq<Group>, known: set<string>)
    requires TrimLaws(x) && forall g | g in plan :: AllAllowed(x, f, regular, regions, g.proxies)
    ensures RefsAllowed(x, f, regular, regions, SanitizedAll(x, Live(x, plan), known))
  {
    var live := Live(x, plan);
    var groups := SanitizedAll(x, live, known);
    forall g, ref | g in groups && ref in g.proxies ensures ref != "" && Allowed(x, f, regular, regions, ref) {
      var i :| 0 <= i < |groups| && groups[i] == g;
      LiveComesFrom(x, plan, live[i]);
      var h :| h in plan && live[i] == h.(proxies := Unique(x, h.proxies));
      SanitizedComesFrom(x, h, known, ref);
      var r :| r in h.proxies && x.trim(r) == ref;
      assert AllAllowed(x, f, regular, regions, h.proxies);
    }
  }

  // ---- Which names are there ----

  lemma {:induction false} RegionPlanHas(x: Lexicon, regions: seq<Resolved>, i: nat)
    requires i < |regions|
    ensures Group(regions[i].auto, "url-test", regions[i].proxies) in RegionPlan(x, regions)
    ensures Group(regions[i].name, "select", [regions[i].auto, x.direct] + regions[i].proxies) in RegionPlan(x, regions)
  {
    if i < |regions| - 1 {
      RegionPlanHas(x, regions[..|regions| - 1], i);
    }
  }

  lemma {:induction false} CategoryPlanHas(x: Lexicon, f: Layout, categories: seq<Category>, full: bool, regular: seq<string>, regions: seq<string>, c: Category)
    requires c in categories && MakesGroup(x, f, c)
    ensures Group(c.groupName, "select", Service(x, f.names, c.key, full, regular, regions)) in CategoryPlan(x, f.names, categories, full, regular, regions)
  {
    var init, last := categories[..|categories| - 1], categories[|categories| - 1];
    assert categories == init + [last];
    if c in init {
      CategoryPlanHas(x, f, init, full, regular, regions, c);
    }
  }

  lemma ServiceHasSelect(x: Lexicon, f: Names, key: string, full: bool, regular: seq<string>, regions: seq<string>)
    requires x.trim(f.nodeSelect) == f.nodeSelect && f.nodeSelect != ""
    ensures f.nodeSelect in Service(x, f, key, full, regular, regions)
  {
    var refs := [f.nodeSelect] + (if regular != [] then [f.autoSelect] else []) + [x.direct, x.reject] + regions + if full then regular else [];
    assert refs[0] == f.nodeSelect;
    NotEmpty(x, refs, f.nodeSelect);
  }

  /** The names that generated references and rules rely on. */
  ghost predicate NamesPresent(x: Lexicon, f: Layout, categories: seq<Category>, regular: seq<string>, regions: seq<Resolved>,
                               created: seq<string>, names: seq<string>) {
    && f.names.nodeSelect in names
    && (regular != [] ==> f.names.autoSelect in names)
    && (forall i | 0 <= i < |regions| :: regions[i].name in names && regions[i].auto in names)
    && (forall c | c in categories && MakesGroup(x, f, c) :: c.groupName in names)
    && (forall n | n in created :: n in names)
  }

  lemma RegionsPresent(x: Lexicon, plan: seq<Group>, known: set<string>, regions: seq<Resolved>, i: nat)
    requires i < |regions| && x.trim(x.direct) != "" && (forall g | g in RegionPlan(x, regions) :: g in plan)
    requires regions[i].proxies != [] && forall v | v in regions[i].proxies :: x.trim(v) != ""
    ensures regions[i].name in GroupNames(SanitizedAll(x, Live(x, plan), known))
    ensures regions[i].auto in GroupNames(SanitizedAll(x, Live(x, plan), known))
  {
    var g := regions[i];
    RegionPlanHas(x, regions, i);
    assert g.proxies[0] in g.proxies;
    Present(x, plan, known, Group(g.auto, "url-test", g.proxies), g.proxies[0]);
    assert x.direct in [g.auto, x.direct] + g.proxies;
    Present(x, plan, known, Group(g.name, "select", [g.auto, x.direct] + g.proxies), x.direct);
  }

  lemma CategoriesPresent(x: Lexicon, f: Layout, plan: seq<Group>, known: set<string>, categories: seq<Category>, full: bool,
                          regular: seq<string>, regions: seq<string>, c: Category)
    requires x.trim(f.names.nodeSelect) == f.names.nodeSelect && f.names.nodeSelect != ""
    requires forall g | g in CategoryPlan(x, f.names, categories, full, regular, regions) :: g in plan
    requires c in categories && MakesGroup(x, f, c)
    ensures c.groupName in GroupNames(SanitizedAll(x, Live(x, plan), known))
  {
    CategoryPlanHas(x, f, categories, full, regular, regions, c);
    ServiceHasSelect(x, f.names, c.key, full, regular, regions);
    Present(x, plan, known, Group(c.groupName, "select", Service(x, f.names, c.key, full, regular, regions)), f.names.nodeSelect);
  }

  lemma CreatedPresent(x: Lexicon, f: Layout, plan: seq<Group>, known: set<string>, created: seq<string>, full: bool,
                       regular: seq<string>, regions: seq<string>, n: string)
    requires x.trim(f.names.nodeSelect) == f.names.nodeSelect && f.names.nodeSelect != "" && n in created
    requires forall g | g in CustomPlan(created, Service(x, f.names, "", full, regular, regions)) :: g in plan
    ensures n in GroupNames(SanitizedAll(x, Live(x, plan), known))
  {
    var service := Service(x, f.names, "", full, regular, regions);
    var i :| 0 <= i < |created| && created[i] == n;
    assert CustomPlan(created, service)[i] == Group(n, "select", service);
    ServiceHasSelect(x, f.names, "", full, regular, regions);
    Present(x, plan, known, Group(n, "select", service), f.names.nodeSelect);
  }

  lemma AllPresent(x: Lexicon, f: Layout, categories: seq<Category>, regions: seq<Resolved>, created: seq<string>, full: bool,
                   regular: seq<string>, known: set<string>)
    requires Settled(x, f.names, regions) && x.direct != "" && f.names.nodeSelect != ""
    requires forall n | n in regular :: x.trim(n) != ""
    requires forall i | 0 <= i < |regions| :: regions[i].proxies != [] && forall v | v in regions[i].proxies :: x.trim(v) != ""
    ensures NamesPresent(x, f, categories, regular, regions, created,
                         GroupNames(SanitizedAll(x, Live(x, Plan(x, f.names, categories, regions, created, full, regular)), known)))
  {
    var plan, names := Plan(x, f.names, categories, regions, created, full, regular), RegionNames(regions);
    FixedInNames(f.names);
    var main := MainSelect(x, f.names, regular, names);
    assert x.direct in main;
    Present(x, plan, known, Group(f.names.nodeSelect, "select", main), x.direct);
    if regular != [] {
      assert regular[0] in regular;
      Present(x, plan, known, Group(f.names.autoSelect, "url-test", regular), regular[0]);
    }
    forall i | 0 <= i < |regions| ensures regions[i].name in GroupNames(SanitizedAll(x, Live(x, plan), known)) && regions[i].auto in GroupNames(SanitizedAll(x, Live(x, plan), known)) {
      RegionsPresent(x, plan, known, regions, i);
    }
    forall c | c in categories && MakesGroup(x, f, c) ensures c.groupName in GroupNames(SanitizedAll(x, Live(x, plan), known)) {
      CategoriesPresent(x, f, plan, known, categories, full, regular, names, c);
    }
    forall n | n in created ensures n in GroupNames(SanitizedAll(x, Live(x, plan), known)) {
      CreatedPresent(x, f, plan, known, created, full, regular, names, n);
    }
  }

  ghost predicate ListsAll(x: Lexicon, regular: seq<string>, refs: seq<string>) {
    forall n | n in regular :: x.trim(n) in refs
  }

  lemma RegionsOf(x: Lexicon, f: Layout, nodes: seq<Item>, opt: Options)
    requires TrimLaws(x) && NamesApart(x, f) && Settled(x, f.names, [])
    ensures var regions := ResolvedRegions(x, f, nodes, opt);
            && Settled(x, f.names, regions) && RegionsMention(x, NamesOf(Regular(nodes)), regions)
            && (regions == [] || regions == Regions(x, f.regions, Regular(nodes)))
            && forall i | 0 <= i < |regions| :: regions[i].proxies != [] && forall v | v in regions[i].proxies :: x.trim(v) != ""
  {
    var regions := ResolvedRegions(x, f, nodes, opt);
    RegionsAreSound(x, f.regions, Regular(nodes));
    forall i | 0 <= i < |regions| ensures SoundRegion(x, f.regions, NamesOf(Regular(nodes)), regions[i]) {
      assert regions[i] in regions;
    }
  }

  lemma {:induction false} RegularNames(nodes: seq<Item>)
    ensures forall n | n in NamesOf(Regular(nodes)) :: exists i :: 0 <= i < |nodes| && !nodes[i].info && nodes[i].name == n
    ensures forall i | 0 <= i < |nodes| && !nodes[i].info :: nodes[i].name in NamesOf(Regular(nodes))
  {
    if nodes != [] {
      var init, last := nodes[..|nodes| - 1], nodes[|nodes| - 1];
      RegularNames(init);
      var regular := Regular(init);
      assert NamesOf(regular + [last]) == NamesOf(regular) + [last.name];
      assert regular + [] == regular;
    }
  }

  /** Groups with distinct names, closed up to regular names, one of which lists every regular name. */
  ghost predicate GroupsSound(x: Lexicon, f: Layout, categories: seq<Category>, regular: seq<string>, regions: seq<Resolved>,
                              created: seq<string>, groups: seq<Group>, main: Group) {
    && Distinct(GroupNames(groups)) && RefsAllowed(x, f.names, regular, regions, groups)
    && NamesPresent(x, f, categories, regular, regions, created, GroupNames(groups))
    && main in groups && ListsAll(x, regular, main.proxies)
  }

  /** The names that custom rules have created for groups. */
  function CreatedFor(x: Lexicon, f: Layout, c: Catalog, nodes: seq<Item>, keys: seq<string>, rules: seq<CustomRule>, opt: Options): seq<string>
    requires Flat(c, x)
  {
    CreatedNames(x, f, c, keys, rules, ResolvedRegions(x, f, nodes, opt), [])
  }

  lemma {:induction false} ReservedRegions(x: Lexicon, regions: seq<Resolved>)
    ensures forall n :: n in GroupNames(RegionPlan(x, regions)) <==> n in RegionReserved(regions)
    ensures forall n :: n in RegionReserved(regions) <==> IsRegion(regions, n)
  {
    if regions != [] {
      var init, g := regions[..|regions| - 1], regions[|regions| - 1];
      ReservedRegions(x, init);
      assert regions == init + [g];
      RegionPlanLast(x, init, g);
      forall n ensures IsRegion(regions, n) <==> IsRegion(init, n) || n == g.name || n == g.auto {
        if IsRegion(init, n) {
          var i :| 0 <= i < |init| && (init[i].name == n || init[i].auto == n);
          assert regions[i] == init[i];
        }
        assert regions[|init|] == g;
      }
    }
  }

  lemma {:induction false} CategoryNamesComeFrom(x: Lexicon, f: Layout, categories: seq<Category>, n: string)
    requires n in CategoryNames(x, f, categories)
    ensures exists c :: c in categories && MakesGroup(x, f, c) && c.groupName == n
  {
    var init, last := categories[..|categories| - 1], categories[|categories| - 1];
    assert categories == init + [last];
    if n in CategoryNames(x, f, init) {
      CategoryNamesComeFrom(x, f, init, n);
    }
  }

  /** Created names are new, because everything else was reserved. */
  lemma CreatedAreNewNames(x: Lexicon, f: Layout, categories: seq<Category>, regions: seq<Resolved>, rules: seq<CustomRule>)
    ensures NewNames(x, f, categories, regions, Created(Resolve(x, f.names, rules, Reserved(x, f.names, RegionReserved(regions), categories, [])).out))
  {
    var reserved := Reserved(x, f.names, RegionReserved(regions), categories, []);
    CreatedAreNew(x, f.names, rules, reserved);
    ReservedRegions(x, regions);
    forall n | n in CategoryNames(x, f, categories) ensures n in reserved {
      CategoryNamesComeFrom(x, f, categories, n);
    }
    assert forall n | n in FixedNames(f.names) :: n in reserved;
  }

  /** The groups of a generated configuration: distinct, closed up to regular names, with the node selection in them. */
  lemma GroupsAreSound(x: Lexicon, f: Layout, c: Catalog, nodes: seq<Item>, keys: seq<string>, rules: seq<CustomRule>, opt: Options) returns (main: Group)
    requires Lawful(x) && WellFormed(x, f, c)
    requires nodes != [] && forall n | n in NamesOf(Regular(nodes)) :: x.trim(n) != ""
    ensures var s, regular, regions := Groups(x, f, c, nodes, keys, rules, opt, [], []), NamesOf(Regular(nodes)), ResolvedRegions(x, f, nodes, opt);
            !s.failed && GroupsSound(x, f, Ordered(c, x, keys), regular, regions, CreatedFor(x, f, c, nodes, keys, rules, opt), s.groups, main)
  {
    var regular, regions, created := NamesOf(Regular(nodes)), ResolvedRegions(x, f, nodes, opt), CreatedFor(x, f, c, nodes, keys, rules, opt);
    RegionsOf(x, f, nodes, opt);
    GroupsFromPlan(x, f, c, nodes, keys, rules, opt);
    PlanIsDistinct(x, f, c, nodes, keys, rules, opt);
    main := PlanIsSound(x, f, Ordered(c, x, keys), regions, created, opt.full, regular, RealNames(x, regular));
  }

  lemma PlanIsDistinct(x: Lexicon, f: Layout, c: Catalog, nodes: seq<Item>, keys: seq<string>, rules: seq<CustomRule>, opt: Options)
    requires TrimLaws(x) && WellFormed(x, f, c)
    ensures Distinct(GroupNames(Plan(x, f.names, Ordered(c, x, keys), ResolvedRegions(x, f, nodes, opt),
                                     CreatedFor(x, f, c, nodes, keys, rules, opt), opt.full, NamesOf(Regular(nodes)))))
  {
    var regions := ResolvedRegions(x, f, nodes, opt);
    CreatedAreNewNames(x, f, Ordered(c, x, keys), regions, rules);
    PlanNames(x, f, c, keys, regions, CreatedFor(x, f, c, nodes, keys, rules, opt), opt.full, NamesOf(Regular(nodes)), Regular(nodes));
  }

  lemma PlanIsSound(x: Lexicon, f: Layout, categories: seq<Category>, regions: seq<Resolved>, created: seq<string>, full: bool, regular: seq<string>, known: set<string>)
    returns (main: Group)
    requires TrimLaws(x) && !AutoKind(x.lower("select")) && x.direct != "" && f.names.nodeSelect != ""
    requires Settled(x, f.names, regions) && RegionsMention(x, regular, regions) && forall n | n in regular :: x.trim(n) != ""
    requires forall i | 0 <= i < |regions| :: regions[i].proxies != [] && forall v | v in regions[i].proxies :: x.trim(v) != ""
    requires Distinct(GroupNames(Plan(x, f.names, categories, regions, created, full, regular)))
    ensures var s := AddAll(x, Start(), Plan(x, f.names, categories, regions, created, full, regular));
            !s.failed && GroupsSound(x, f, categories, regular, regions, created, SanitizedAll(x, s.groups, known), main)
  {
    var plan := Plan(x, f.names, categories, regions, created, full, regular);
    AddAllIsLive(x, plan);
    LiveNames(x, plan);
    SanitizedNames(x, Live(x, plan), known);
    PlanAllowed(x, f.names, categories, regions, created, full, regular);
    GroupsAllowed(x, f.names, regular, regions, plan, known);
    AllPresent(x, f, categories, regions, created, full, regular, known);
    main := MainIsThere(x, f, categories, regions, created, full, regular, known);
  }

  lemma GroupsFromPlan(x: Lexicon, f: Layout, c: Catalog, nodes: seq<Item>, keys: seq<string>, rules: seq<CustomRule>, opt: Options)
    requires Flat(c, x)
    ensures var regular, regions := NamesOf(Regular(nodes)), ResolvedRegions(x, f, nodes, opt);
            var s := AddAll(x, Start(), Plan(x, f.names, Ordered(c, x, keys), regions, CreatedFor(x, f, c, nodes, keys, rules, opt), opt.full, regular));
            Groups(x, f, c, nodes, keys, rules, opt, [], []) == s.(groups := SanitizedAll(x, s.groups, RealNames(x, regular)))
  {
    var plan := Plan(x, f.names, Ordered(c, x, keys), ResolvedRegions(x, f, nodes, opt), CreatedFor(x, f, c, nodes, keys, rules, opt),
                     opt.full, NamesOf(Regular(nodes)));
    assert plan + [] == plan;
  }

  lemma MainIsThere(x: Lexicon, f: Layout, categories: seq<Category>, regions: seq<Resolved>, created: seq<string>, full: bool, regular: seq<string>, known: set<string>)
    returns (main: Group)
    requires !AutoKind(x.lower("select")) && Settled(x, f.names, regions) && x.direct != "" && forall n | n in regular :: x.trim(n) != ""
    ensures main in SanitizedAll(x, Live(x, Plan(x, f.names, categories, regions, created, full, regular)), known)
    ensures ListsAll(x, regular, main.proxies)
  {
    var plan, refs := Plan(x, f.names, categories, regions, created, full, regular), MainSelect(x, f.names, regular, RegionNames(regions));
    var h := Group(f.names.nodeSelect, "select", refs);
    assert x.direct in refs;
    NotEmpty(x, refs, x.direct);
    LiveHas(x, plan, h);
    main := h.(proxies := Unique(x, refs));
    var i :| 0 <= i < |Live(x, plan)| && Live(x, plan)[i] == main;
    assert SanitizedAll(x, Live(x, plan), known)[i] == main;
    forall n | n in regular ensures x.trim(n) in main.proxies {
      assert n in refs;
      NotEmpty(x, refs, n);
    }
  }

  // ---- Exactly which groups there are ----

  /** A group with this name: one of the fixed ones, a region's, an enabled category's, or a custom rule's. */
  ghost predicate GroupThere(x: Lexicon, f: Layout, categories: seq<Category>, regular: seq<string>, regions: seq<Resolved>,
                             created: seq<string>, n: string) {
    || n == f.names.nodeSelect || n == f.names.finalGroup || (n == f.names.autoSelect && regular != [])
    || IsRegion(regions, n) || (exists c :: c in categories && MakesGroup(x, f, c) && c.groupName == n) || n in created
  }

  lemma {:induction false} LiveHasMembers(x: Lexicon, plan: seq<Group>, n: string)
    requires n in GroupNames(Live(x, plan))
    ensures exists g :: g in plan && g.name == n && Unique(x, g.proxies) != []
  {
    var init, last := plan[..|plan| - 1], plan[|plan| - 1];
    var added := if Unique(x, last.proxies) == [] then [] else [last.(proxies := Unique(x, last.proxies))];
    assert Live(x, plan) == Live(x, init) + added;
    assert plan == init + [last];
    GroupNamesConcat(Live(x, init), added);
    if n in GroupNames(Live(x, init)) {
      LiveHasMembers(x, init, n);
    } else {
      assert last in plan && last.name == n;
    }
  }

  lemma GroupNamesConcat(a: seq<Group>, b: seq<Group>)
    ensures GroupNames(a + b) == GroupNames(a) + GroupNames(b)
  {
  }

  /** What is named in the plan, apart from the automatic selection, is there. */
  lemma PlannedIsThere(x: Lexicon, f: Layout, categories: seq<Category>, regions: seq<Resolved>, created: seq<string>, full: bool,
                       regular: seq<string>, n: string)
    requires n in GroupNames(Plan(x, f.names, categories, regions, created, full, regular)) && n != f.names.autoSelect
    ensures GroupThere(x, f, categories, regular, regions, created, n)
  {
    PlanNamesAre(x, f.names, categories, regions, created, full, regular);
    CategoryNamesAre(x, f, categories, full, regular, RegionNames(regions));
    ReservedRegions(x, regions);
    if n in CategoryNames(x, f, categories) {
      CategoryNamesComeFrom(x, f, categories, n);
    }
  }

  /** Without regular nodes the automatic selection has no members, and no other group has its name. */
  lemma NoAutomaticSelection(x: Lexicon, f: Layout, categories: seq<Category>, regions: seq<Resolved>, created: seq<string>, full: bool)
    requires Distinct(GroupNames(Plan(x, f.names, categories, regions, created, full, [])))
    ensures f.names.autoSelect !in GroupNames(Live(x, Plan(x, f.names, categories, regions, created, full, [])))
  {
    var plan := Plan(x, f.names, categories, regions, created, full, []);
    assert plan[1] == Group(f.names.autoSelect, "url-test", []) && GroupNames(plan)[1] == f.names.autoSelect;
    assert Unique(x, []) == [];
    forall g | g in plan && g.name == f.names.autoSelect ensures Unique(x, g.proxies) == [] {
      var i :| 0 <= i < |plan| && plan[i] == g;
      assert GroupNames(plan)[i] == g.name;
    }
    if f.names.autoSelect in GroupNames(Live(x, plan)) {
      LiveHasMembers(x, plan, f.names.autoSelect);
    }
  }

  lemma FinalPresent(x: Lexicon, f: Layout, categories: seq<Category>, regions: seq<Resolved>, created: seq<string>, full: bool,
                     regular: seq<string>, known: set<string>)
    requires x.trim(f.names.nodeSelect) == f.names.nodeSelect && f.names.nodeSelect != ""
    ensures f.names.finalGroup in GroupNames(SanitizedAll(x, Live(x, Plan(x, f.names, categories, regions, created, full, regular)), known))
  {
    var plan, names := Plan(x, f.names, categories, regions, created, full, regular), RegionNames(regions);
    ServiceHasSelect(x, f.names, "", full, regular, names);
    var g := Group(f.names.finalGroup, "select", Service(x, f.names, "", full, regular, names));
    assert plan[|plan| - 1] == g;
    Present(x, plan, known, g, f.names.nodeSelect);
  }

  /** The groups of a generated configuration are exactly those that its inputs call for. */
  lemma GroupNamesAreExact(x: Lexicon, f: Layout, c: Catalog, nodes: seq<Item>, keys: seq<string>, rules: seq<CustomRule>, opt: Options, n: string)
    requires Lawful(x) && WellFormed(x, f, c)
    requires nodes != [] && forall m | m in NamesOf(Regular(nodes)) :: x.trim(m) != ""
    ensures n in GroupNames(Groups(x, f, c, nodes, keys, rules, opt, [], []).groups) <==>
              GroupThere(x, f, Ordered(c, x, keys), NamesOf(Regular(nodes)), ResolvedRegions(x, f, nodes, opt),
                         CreatedFor(x, f, c, nodes, keys, rules, opt), n)
  {
    var categories, regular := Ordered(c, x, keys), NamesOf(Regular(nodes));
    var regions, created := ResolvedRegions(x, f, nodes, opt), CreatedFor(x, f, c, nodes, keys, rules, opt);
    var plan := Plan(x, f.names, categories, regions, created, opt.full, regular);
    PlanIsDistinct(x, f, c, nodes, keys, rules, opt);
    RegionsOf(x, f, nodes, opt);
    GroupsFromPlan(x, f, c, nodes, keys, rules, opt);
    AddAllIsLive(x, plan);
    LiveNames(x, plan);
    SanitizedNames(x, Live(x, plan), RealNames(x, regular));
    PlanIsExact(x, f, categories, regions, created, opt.full, regular, RealNames(x, regular), n);
  }

  lemma PlanIsExact(x: Lexicon, f: Layout, categories: seq<Category>, regions: seq<Resolved>, created: seq<string>, full: bool,
                    regular: seq<string>, known: set<string>, n: string)
    requires Settled(x, f.names, regions) && x.direct != "" && f.names.nodeSelect != "" && x.trim(f.names.nodeSelect) == f.names.nodeSelect
    requires forall m | m in regular :: x.trim(m) != ""
    requires forall i | 0 <= i < |regions| :: regions[i].proxies != [] && forall v | v in regions[i].proxies :: x.trim(v) != ""
    requires Distinct(GroupNames(Plan(x, f.names, categories, regions, created, full, regular)))
    ensures var names := GroupNames(SanitizedAll(x, Live(x, Plan(x, f.names, categories, regions, created, full, regular)), known));
            n in names <==> GroupThere(x, f, categories, regular, regions, created, n)
  {
    var plan := Plan(x, f.names, categories, regions, created, full, regular);
    AllPresent(x, f, categories, regions, created, full, regular, known);
    FinalPresent(x, f, categories, regions, created, full, regular, known);
    SanitizedNames(x, Live(x, plan), known);
    LiveNames(x, plan);
    if n in GroupNames(Live(x, plan)) {
      if n != f.names.autoSelect {
        PlannedIsThere(x, f, categories, regions, created, full, regular, n);
      } else if regular == [] {
        NoAutomaticSelection(x, f, categories, regions, created, full);
      }
    }
  }
}
