/** Custom rules: `resolveCustomRules` and `uniqueGroupName` in `internal/renderer/mihomo.go`. The builders of
    groups, rules and providers each resolve the custom rules on their own, so the resolutions must agree. */
module CustomRules {
  import opened Common
  import opened RuleText
  import opened RuleCatalog
  import ProxyNames

  /** The group names the generator uses itself, and what counts as "PROXY". */
  datatype Names = Names(nodeSelect: string, autoSelect: string, finalGroup: string, unnamed: string, isProxy: string -> bool)

  datatype CustomRule = CustomRule(key: string, caption: string, icon: string, targetGroup: string, targetMode: string,
                                   groupOnly: bool, noResolve: bool, enabled: bool)

  /** A resolved rule; `line` is empty for rules that only make a group. */
  datatype Compiled = Compiled(key: string, target: string, create: bool, line: string)

  // ---- Unique names ----

  function Candidate(base: string, i: nat): string {
    base + " " + ProxyNames.Digits(i)
  }

  lemma CandidateInjective(base: string, i: nat, j: nat)
    requires Candidate(base, i) == Candidate(base, j)
    ensures i == j
  {
    var n := |base| + 1;
    assert Candidate(base, i)[n..] == ProxyNames.Digits(i) && Candidate(base, j)[n..] == ProxyNames.Digits(j);
    ProxyNames.DigitsInjective(i, j);
  }

  /** The reserved names that the search may still meet. */
  ghost function Ahead(base: string, reserved: set<string>, i: nat): set<string> {
    set n | n in reserved && exists j: nat :: i <= j && Candidate(base, j) == n
  }

  lemma AheadShrinks(base: string, reserved: set<string>, i: nat)
    requires Candidate(base, i) in reserved
    ensures Ahead(base, reserved, i + 1) < Ahead(base, reserved, i)
  {
    assert Candidate(base, i) in Ahead(base, reserved, i);
    forall j: nat | i + 1 <= j ensures Candidate(base, j) != Candidate(base, i) {
      if Candidate(base, j) == Candidate(base, i) {
        CandidateInjective(base, j, i);
      }
    }
  }

  /** The first number from `i` on whose candidate is free. */
  function FirstFree(base: string, reserved: set<string>, i: nat): (k: nat)
    ensures i <= k && Candidate(base, k) !in reserved
    ensures forall j: nat | i <= j < k :: Candidate(base, j) in reserved
    decreases Ahead(base, reserved, i)
  {
    if Candidate(base, i) !in reserved then i
    else
      AheadShrinks(base, reserved, i);
      FirstFree(base, reserved, i + 1)
  }

  function Base(x: Lexicon, f: Names, name: string): string {
    if x.trim(name) == "" then f.unnamed else x.trim(name)
  }

  function UniqueName(x: Lexicon, f: Names, name: string, reserved: set<string>): (r: string)
    ensures r !in reserved
  {
    var base := Base(x, f, name);
    if base !in reserved then base else Candidate(base, FirstFree(base, reserved, 2))
  }

  /** `uniqueGroupName`. The search ends because only finitely many names are reserved. */
  method UniqueGroupName(x: Lexicon, f: Names, name: string, reserved: set<string>) returns (r: string)
    ensures r == UniqueName(x, f, name, reserved)
  {
    var candidate := x.trim(name);
    if candidate == "" {
      candidate := f.unnamed;
    }
    if candidate !in reserved {
      return candidate;
    }
    var i := 2;
    while true
      invariant 2 <= i <= FirstFree(candidate, reserved, 2)
      decreases FirstFree(candidate, reserved, 2) - i
    {
      var next := Candidate(candidate, i);
      if next !in reserved {
        return next;
      }
      i := i + 1;
    }
  }

  // ---- Resolution ----

  function Display(x: Lexicon, rule: CustomRule): string {
    if x.trim(rule.icon) != "" then x.trim(rule.icon + " " + rule.caption) else x.trim(rule.caption)
  }

  predicate Counts(x: Lexicon, rule: CustomRule) {
    rule.enabled && x.trim(rule.key) != "" && x.trim(rule.caption) != ""
  }

  /** The name of the group a rule creates, or none: rules for direct, reject or another group create none. */
  function Creates(x: Lexicon, f: Names, rule: CustomRule): (create: bool)
  {
    match x.lower(rule.targetMode)
    case "direct" => false
    case "reject" => false
    case "existing_group" =>
      var t := x.trim(rule.targetGroup);
      t == "" || f.isProxy(t) || t == f.nodeSelect
    case _ => true
  }

  function WantedName(x: Lexicon, rule: CustomRule): string {
    if x.lower(rule.targetMode) == "existing_group" || x.trim(rule.targetGroup) == "" then Display(x, rule) else x.trim(rule.targetGroup)
  }

  function Target(x: Lexicon, f: Names, rule: CustomRule, reserved: set<string>): string {
    if Creates(x, f, rule) then UniqueName(x, f, WantedName(x, rule), reserved)
    else if x.lower(rule.targetMode) == "direct" then x.direct
    else if x.lower(rule.targetMode) == "reject" then x.reject
    else x.trim(rule.targetGroup)
  }

  function Compile(x: Lexicon, f: Names, rule: CustomRule, reserved: set<string>): Compiled {
    var target := Target(x, f, rule, reserved);
    Compiled(rule.key, target, Creates(x, f, rule), if rule.groupOnly then "" else x.ruleSet(Spec(rule.key, target, rule.noResolve)))
  }

  datatype Resolution = Resolution(out: seq<Compiled>, reserved: set<string>)

  function ResolveStep(x: Lexicon, f: Names, res: Resolution, rule: CustomRule): Resolution {
    if !Counts(x, rule) then res
    else
      var c := Compile(x, f, rule, res.reserved);
      Resolution(res.out + [c], if c.create then res.reserved + {c.target} else res.reserved)
  }

  function Resolve(x: Lexicon, f: Names, rules: seq<CustomRule>, reserved: set<string>): Resolution {
    if rules == [] then Resolution([], reserved)
    else ResolveStep(x, f, Resolve(x, f, rules[..|rules| - 1], reserved), rules[|rules| - 1])
  }

  /** The names nothing else may be called: fixed groups, region groups, category groups, custom groups. */
  function Reserved(x: Lexicon, f: Names, regions: seq<string>, categories: seq<Category>, customGroups: seq<string>): set<string> {
    {f.nodeSelect, f.autoSelect, f.finalGroup} + (set n | n in regions)
      + (set c | c in categories && x.trim(c.groupName) != "" :: c.groupName)
      + (set n | n in customGroups && x.trim(n) != "")
  }

  /** `resolveCustomRules`. */
  method ResolveCustomRules(x: Lexicon, f: Names, c: Catalog, rules: seq<CustomRule>, keys: seq<string>, regions: seq<string>,
                            customGroups: seq<string>) returns (out: seq<Compiled>)
    requires Flat(c, x)
    ensures out == Resolve(x, f, rules, Reserved(x, f, regions, Ordered(c, x, keys), customGroups)).out
  {
    var categories := OrderedByOrder(c, x, keys, c.order);
    var start := Reserved(x, f, regions, categories, customGroups);
    var reserved := start;
    out := [];
    for i := 0 to |rules|
      invariant Resolution(out, reserved) == Resolve(x, f, rules[..i], start)
    {
      assert rules[..i + 1][..i] == rules[..i];
      if !Counts(x, rules[i]) {
        continue;
      }
      var compiled := Compile(x, f, rules[i], reserved);
      if compiled.create {
        reserved := reserved + {compiled.target};
      }
      out := out + [compiled];
    }
    assert rules[..|rules|] == rules;
  }

  function Created(out: seq<Compiled>): seq<string> {
    if out == [] then []
    else Created(out[..|out| - 1]) + if out[|out| - 1].create then [out[|out| - 1].target] else []
  }

  /** What resolving keeps: created names are new and distinct, and all of them are reserved. */
  ghost predicate AllNew(res: Resolution, start: set<string>) {
    var created := Created(res.out);
    && Distinct(created) && (forall n | n in created :: n !in start)
    && (forall n :: n in res.reserved <==> n in start || n in created)
  }

  lemma CreatedLast(out: seq<Compiled>, c: Compiled)
    ensures Created(out + [c]) == Created(out) + if c.create then [c.target] else []
  {
  }

  /** Created groups are pairwise distinct and never take a reserved name. */
  lemma {:induction false} CreatedAreNew(x: Lexicon, f: Names, rules: seq<CustomRule>, reserved: set<string>)
    ensures AllNew(Resolve(x, f, rules, reserved), reserved)
  {
    if rules != [] {
      var init, rule := rules[..|rules| - 1], rules[|rules| - 1];
      CreatedAreNew(x, f, init, reserved);
      var before := Resolve(x, f, init, reserved);
      if Counts(x, rule) {
      }
    }
  }

  // ---- Do the three resolutions agree? ----

  /** With region groups off, groups, rules and providers see the same resolution, although the rules are built
      from keys that were normalised once more. */
  lemma ResolutionsAgree(x: Lexicon, f: Names, c: Catalog, rules: seq<CustomRule>, keys: seq<string>, customGroups: seq<string>)
    requires Flat(c, x) && SelfLast(c) && KeysNormal(c, x)
    ensures Resolve(x, f, rules, Reserved(x, f, [], Ordered(c, x, NormalizeKeys(c, x, keys)), customGroups))
            == Resolve(x, f, rules, Reserved(x, f, [], Ordered(c, x, keys), customGroups))
  {
    NormalizeIsIdempotent(c, x, keys);
  }

  /** Reserving more names does not change a name that is still free. */
  lemma UniqueNameStays(x: Lexicon, f: Names, name: string, reserved: set<string>, more: set<string>)
    requires UniqueName(x, f, name, reserved) !in more
    ensures UniqueName(x, f, name, reserved + more) == UniqueName(x, f, name, reserved)
  {
  }

  lemma {:induction false} MoreReserved(x: Lexicon, f: Names, rules: seq<CustomRule>, reserved: set<string>, more: set<string>)
    requires forall n | n in Created(Resolve(x, f, rules, reserved).out) :: n !in more
    ensures var a, b := Resolve(x, f, rules, reserved + more), Resolve(x, f, rules, reserved);
            a.out == b.out && a.reserved == b.reserved + more
  {
    if rules != [] {
      var init, rule := rules[..|rules| - 1], rules[|rules| - 1];
      var before := Resolve(x, f, init, reserved);
      if Counts(x, rule) {
        var c := Compile(x, f, rule, before.reserved);
        CreatedLast(before.out, c);
        MoreReserved(x, f, init, reserved, more);
        if c.create {
          assert c.target in Created(before.out + [c]);
          UniqueNameStays(x, f, WantedName(x, rule), before.reserved, more);
        }
      } else {
        MoreReserved(x, f, init, reserved, more);
      }
    }
  }

  /** With region groups on, only the group builder reserves their names. Its resolution is still the one the
      rules use exactly when no custom rule creates a group named like a region group. */
  lemma RegionResolutionsAgreeIff(x: Lexicon, f: Names, rules: seq<CustomRule>, regions: seq<string>, categories: seq<Category>, customGroups: seq<string>)
    ensures var forRules := Resolve(x, f, rules, Reserved(x, f, [], categories, customGroups)).out;
            Resolve(x, f, rules, Reserved(x, f, regions, categories, customGroups)).out == forRules
            <==> forall n | n in Created(forRules) :: n !in regions
  {
    var plain, more := Reserved(x, f, [], categories, customGroups), set n | n in regions;
    assert Reserved(x, f, regions, categories, customGroups) == plain + more;
    if forall n | n in Created(Resolve(x, f, rules, plain).out) :: n !in regions {
      MoreReserved(x, f, rules, plain, more);
    }
    CreatedAreNew(x, f, rules, plain + more);
  }

  /** A name, or one of its numbered forms. */
  ghost predicate NumberedFrom(base: string, n: string) {
    n == base || exists k: nat :: k >= 2 && n == Candidate(base, k)
  }

  /** Created groups are called what their rules want, or a numbered form of it. */
  lemma {:induction false} CreatedAreWanted(x: Lexicon, f: Names, rules: seq<CustomRule>, reserved: set<string>, n: string)
    requires n in Created(Resolve(x, f, rules, reserved).out)
    ensures exists rule :: rule in rules && Counts(x, rule) && Creates(x, f, rule) && NumberedFrom(Base(x, f, WantedName(x, rule)), n)
  {
    var init, rule := rules[..|rules| - 1], rules[|rules| - 1];
    var before := Resolve(x, f, init, reserved);
    assert rules == init + [rule];
    if n in Created(before.out) {
      CreatedAreWanted(x, f, init, reserved, n);
    } else {
      CreatedLast(before.out, Compile(x, f, rule, before.reserved));
      assert rule in rules && NumberedFrom(Base(x, f, WantedName(x, rule)), n);
    }
  }

  /** So it is enough, before anything is resolved, that no rule that creates a group wants the name of a region group or
      a name of which that is a numbered form. */
  lemma RegionsOutOfTheWay(x: Lexicon, f: Names, rules: seq<CustomRule>, regions: seq<string>, categories: seq<Category>, customGroups: seq<string>)
    requires forall rule, n | rule in rules && Counts(x, rule) && Creates(x, f, rule) && n in regions :: !NumberedFrom(Base(x, f, WantedName(x, rule)), n)
    ensures Resolve(x, f, rules, Reserved(x, f, regions, categories, customGroups)).out
            == Resolve(x, f, rules, Reserved(x, f, [], categories, customGroups)).out
  {
    var plain := Reserved(x, f, [], categories, customGroups);
    RegionResolutionsAgreeIff(x, f, rules, regions, categories, customGroups);
    forall n | n in Created(Resolve(x, f, rules, plain).out) ensures n !in regions {
      CreatedAreWanted(x, f, rules, plain, n);
    }
  }

  /** Even where two resolutions disagree, every name that the one without region groups gives out is taken in the
      other: by a region group, or by a group that some custom rule created there. */
  lemma {:induction false} NamesAreTaken(x: Lexicon, f: Names, rules: seq<CustomRule>, fewer: set<string>, more: set<string>)
    requires fewer <= more
    ensures Resolve(x, f, rules, fewer).reserved <= Resolve(x, f, rules, more).reserved
  {
    if rules != [] {
      var init, rule := rules[..|rules| - 1], rules[|rules| - 1];
      NamesAreTaken(x, f, init, fewer, more);
    }
  }

  /** Where they disagree the rule points at the region group while the group made for it stands unused. */
  lemma RegionNameIsTaken(x: Lexicon, f: Names, rule: CustomRule, region: string)
    requires Lawful(x) && Counts(x, rule) && x.lower(rule.targetMode) == "new_group"
    requires x.trim(rule.targetGroup) == region && region != ""
    requires {region, Candidate(region, 2)} !! {f.nodeSelect, f.autoSelect, f.finalGroup}
    ensures Resolve(x, f, [rule], Reserved(x, f, [], [], [])).out[0].target == region
    ensures Resolve(x, f, [rule], Reserved(x, f, [region], [], [])).out[0].target == Candidate(region, 2)
  {
    assert [rule][..0] == [];
    var a, b := Reserved(x, f, [], [], []), Reserved(x, f, [region], [], []);
    assert a == {f.nodeSelect, f.autoSelect, f.finalGroup};
    assert b == a + {region} by { assert region in [region]; }
    assert Resolve(x, f, [rule], a) == ResolveStep(x, f, Resolution([], a), rule);
    assert Resolve(x, f, [rule], b) == ResolveStep(x, f, Resolution([], b), rule);
    assert x.trim(region) == region;
  }

  // ---- What each rule becomes, by its own fields ----

  /** The rule takes part: it is enabled and has a key and a caption. */
  ghost predicate TakesPart(x: Lexicon, rule: CustomRule) {
    rule.enabled && x.trim(rule.key) != "" && x.trim(rule.caption) != ""
  }

  /** The rule points at a group that is neither blank, "PROXY" nor the node selection. */
  ghost predicate PointsAt(x: Lexicon, f: Names, rule: CustomRule, group: string) {
    x.lower(rule.targetMode) == "existing_group" && group == x.trim(rule.targetGroup) && group != "" && group != f.nodeSelect && !f.isProxy(group)
  }

  /** The name a new group is asked to have: the rule's own group name, where its mode allows one, or else its icon
      and caption. */
  ghost predicate AsksFor(x: Lexicon, rule: CustomRule, name: string) {
    if x.lower(rule.targetMode) != "existing_group" && x.trim(rule.targetGroup) != "" then name == x.trim(rule.targetGroup)
    else if x.trim(rule.icon) == "" then name == x.trim(rule.caption)
    else name == x.trim(rule.icon + " " + rule.caption)
  }

  /** The name itself where it is free, or else its first free numbered form from 2 on. */
  ghost predicate FirstFreeOf(base: string, taken: set<string>, n: string) {
    && n !in taken
    && (n == base || (base in taken && exists k: nat :: k >= 2 && n == Candidate(base, k) && forall j: nat | 2 <= j < k :: Candidate(base, j) in taken))
  }

  /** The group that a rule makes. */
  ghost predicate Makes(x: Lexicon, f: Names, rule: CustomRule, taken: set<string>, n: string) {
    exists name :: AsksFor(x, rule, name) && FirstFreeOf(if x.trim(name) == "" then f.unnamed else x.trim(name), taken, n)
  }

  ghost predicate Aims(x: Lexicon, f: Names, rule: CustomRule, taken: set<string>, target: string, create: bool) {
    if x.lower(rule.targetMode) == "direct" then target == x.direct && !create
    else if x.lower(rule.targetMode) == "reject" then target == x.reject && !create
    else if PointsAt(x, f, rule, target) then !create
    else create && (forall group :: !PointsAt(x, f, rule, group)) && Makes(x, f, rule, taken, target)
  }

  /** The entry carries the rule's key, aims where the rule says, and unless the rule is only for a group, its line
      sends the rule's provider to that target. */
  ghost predicate Becomes(x: Lexicon, f: Names, rule: CustomRule, taken: set<string>, e: Compiled) {
    && e.key == rule.key && Aims(x, f, rule, taken, e.target, e.create)
    && e.line == (if rule.groupOnly then "" else x.ruleSet(Spec(rule.key, e.target, rule.noResolve)))
  }

  /** The places of the rules that take part, in order. */
  ghost predicate Picks(x: Lexicon, rules: seq<CustomRule>, at: seq<nat>) {
    && (forall i, j | 0 <= i < j < |at| :: at[i] < at[j])
    && (forall j :: j in at <==> 0 <= j < |rules| && TakesPart(x, rules[j]))
  }

  /** Each of the picked rules becomes its entry, where the names of the groups made before it are taken. */
  ghost predicate AllBecome(x: Lexicon, f: Names, rules: seq<CustomRule>, start: set<string>, at: seq<nat>, out: seq<Compiled>) {
    && |at| == |out|
    && forall i | 0 <= i < |at| :: at[i] < |rules| && Becomes(x, f, rules[at[i]], start + (set n | n in Created(out[..i])), out[i])
  }

  lemma UniqueIsFirstFree(x: Lexicon, f: Names, name: string, taken: set<string>)
    ensures FirstFreeOf(if x.trim(name) == "" then f.unnamed else x.trim(name), taken, UniqueName(x, f, name, taken))
  {
  }

  lemma CompiledBecomes(x: Lexicon, f: Names, rule: CustomRule, taken: set<string>)
    ensures Becomes(x, f, rule, taken, Compile(x, f, rule, taken))
  {
    UniqueIsFirstFree(x, f, WantedName(x, rule), taken);
    assert AsksFor(x, rule, WantedName(x, rule));
    assert Creates(x, f, rule) ==> Makes(x, f, rule, taken, UniqueName(x, f, WantedName(x, rule), taken));
  }

  /** The resolution has one entry for each rule that takes part, in order. */
  lemma {:induction false} ResolvedAre(x: Lexicon, f: Names, rules: seq<CustomRule>, start: set<string>) returns (at: seq<nat>)
    ensures Picks(x, rules, at) && AllBecome(x, f, rules, start, at, Resolve(x, f, rules, start).out)
  {
    at := [];
    if rules != [] {
      var last := |rules| - 1;
      var init, rule := rules[..last], rules[last];
      var before := Resolve(x, f, init, start);
      at := ResolvedAre(x, f, init, start);
      StillBecome(x, f, rules, start, at, before.out);
      PicksOneMore(x, rules, at);
      if TakesPart(x, rule) {
        CreatedAreNew(x, f, init, start);
        CompiledBecomes(x, f, rule, before.reserved);
        assert before.reserved == start + set n | n in Created(before.out);
        BecomeOneMore(x, f, rules, start, at, before.out, Compile(x, f, rule, before.reserved));
        at := at + [last];
      }
    }
  }

  lemma PicksOneMore(x: Lexicon, rules: seq<CustomRule>, at: seq<nat>)
    requires rules != [] && Picks(x, rules[..|rules| - 1], at)
    ensures Picks(x, rules, at + if TakesPart(x, rules[|rules| - 1]) then [|rules| - 1] else [])
  {
    forall i | 0 <= i < |at| ensures at[i] < |rules| - 1 {
      assert at[i] in at;
    }
    assert at + [] == at;
  }

  lemma StillBecome(x: Lexicon, f: Names, rules: seq<CustomRule>, start: set<string>, at: seq<nat>, out: seq<Compiled>)
    requires rules != [] && AllBecome(x, f, rules[..|rules| - 1], start, at, out)
    ensures AllBecome(x, f, rules, start, at, out)
  {
    forall i | 0 <= i < |at| ensures at[i] < |rules| - 1 && rules[..|rules| - 1][at[i]] == rules[at[i]] {
      assert Becomes(x, f, rules[..|rules| - 1][at[i]], start + (set n | n in Created(out[..i])), out[i]);
    }
  }

  lemma BecomeOneMore(x: Lexicon, f: Names, rules: seq<CustomRule>, start: set<string>, at: seq<nat>, out: seq<Compiled>, e: Compiled)
    requires rules != [] && AllBecome(x, f, rules, start, at, out)
    requires Becomes(x, f, rules[|rules| - 1], start + (set n | n in Created(out)), e)
    ensures AllBecome(x, f, rules, start, at + [|rules| - 1], out + [e])
  {
    var more, longer := at + [|rules| - 1], out + [e];
    forall i | 0 <= i < |more|
      ensures more[i] < |rules| && Becomes(x, f, rules[more[i]], start + (set n | n in Created(longer[..i])), longer[i])
    {
      assert longer[..i] == out[..i];
      if i == |at| {
        assert out[..i] == out;
      } else {
        assert Becomes(x, f, rules[at[i]], start + (set n | n in Created(out[..i])), out[i]);
      }
    }
  }
}
