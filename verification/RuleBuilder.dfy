/** Rules and rule providers: `buildRules`, `mergeRules` and `buildRuleProviders` in `internal/renderer/mihomo.go`. */
module RuleBuilder {
  import opened RuleText
  import opened RuleCatalog
  import opened ProxyGroups

  // ---- Rules ----

  function Lines(x: Lexicon, specs: seq<Spec>): seq<string> {
    seq(|specs|, i requires 0 <= i < |specs| => x.ruleSet(specs[i]))
  }

  /** The rules of every category but the one that goes last. */
  function NormalLines(x: Lexicon, categories: seq<Category>): seq<string> {
    if categories == [] then []
    else
      var c := categories[|categories| - 1];
      NormalLines(x, categories[..|categories| - 1]) + if c.key == "nonstandard_port" then [] else Lines(x, c.rules)
  }

  function TrailingLines(x: Lexicon, categories: seq<Category>): seq<string> {
    if categories == [] then []
    else
      var c := categories[|categories| - 1];
      TrailingLines(x, categories[..|categories| - 1]) + if c.key == "nonstandard_port" then Lines(x, c.rules) else []
  }

  /** `normalizeFinalPolicyName`, with a blank policy already replaced. */
  function Policy(x: Lexicon, f: Layout, policy: string): string {
    var p := x.trim(policy);
    if p == "" || p == f.finalAlias then f.names.finalGroup
    else if p == f.selectAlias then f.names.nodeSelect
    else p
  }

  function DomesticLines(x: Lexicon, f: Layout, enabled: seq<string>): seq<string> {
    if "domestic" in enabled then [x.ruleSet(Spec(f.cnProvider, f.domesticTarget, false))] else []
  }

  /** All base rules except the last, which is the MATCH rule. */
  function BaseRules(x: Lexicon, f: Layout, c: Catalog, keys: seq<string>): seq<string>
    requires Flat(c, x)
  {
    var enabled := NormalizeKeys(c, x, keys);
    var categories := OrderedForRules(c, x, enabled);
    NormalLines(x, categories) + DomesticLines(x, f, enabled) + TrailingLines(x, categories)
  }

  function NotBlank(x: Lexicon, norm: string -> string, rules: seq<string>): seq<string> {
    if rules == [] then []
    else NotBlank(x, norm, rules[..|rules| - 1]) + if norm(rules[|rules| - 1]) == "" then [] else [norm(rules[|rules| - 1])]
  }

  /** `normalizeRules`; `norm` is `normalizeRuleLine`. */
  function NormalizeRules(x: Lexicon, norm: string -> string, rules: seq<string>): seq<string> {
    Unique(x, NotBlank(x, norm, rules))
  }

  /** The user's rules, in front of the base rules. */
  function Extras(x: Lexicon, norm: string -> string, custom: seq<string>, additional: seq<string>, providers: seq<string>): seq<string> {
    NormalizeRules(x, norm, custom) + NormalizeRules(x, norm, additional) + NormalizeRules(x, norm, providers)
  }

  /** `mergeRules`. */
  function MergeRules(x: Lexicon, extras: seq<string>, base: seq<string>): seq<string> {
    var b := Unique(x, base);
    if b != [] && x.isMatch(b[|b| - 1]) && b[|b| - 1] != "" then Unique(x, extras + b[..|b| - 1] + [b[|b| - 1]])
    else Unique(x, extras + b)
  }

  /** `buildRules`. */
  function Rules(x: Lexicon, f: Layout, c: Catalog, norm: string -> string, keys: seq<string>, policy: string,
                 custom: seq<string>, additional: seq<string>, providers: seq<string>): seq<string>
    requires Flat(c, x)
  {
    MergeRules(x, Extras(x, norm, custom, additional, providers), BaseRules(x, f, c, keys) + [x.matchLine(Policy(x, f, policy))])
  }

  method NormalizeRuleList(x: Lexicon, norm: string -> string, rules: seq<string>) returns (out: seq<string>)
    ensures out == NormalizeRules(x, norm, rules)
  {
    var normalized: seq<string> := [];
    for i := 0 to |rules|
      invariant normalized == NotBlank(x, norm, rules[..i])
    {
      assert rules[..i + 1][..i] == rules[..i];
      var rule := norm(rules[i]);
      if rule == "" {
        continue;
      }
      normalized := normalized + [rule];
    }
    assert rules[..|rules|] == rules;
    out := UniqueOrdered(x, normalized);
  }

  method MergeRuleLists(x: Lexicon, norm: string -> string, base: seq<string>, custom: seq<string>, additional: seq<string>, providers: seq<string>)
    returns (out: seq<string>)
    ensures out == MergeRules(x, Extras(x, norm, custom, additional, providers), base)
  {
    var b := UniqueOrdered(x, base);
    var c := NormalizeRuleList(x, norm, custom);
    var p := NormalizeRuleList(x, norm, providers);
    var a := NormalizeRuleList(x, norm, additional);
    var matchRule := "";
    if |b| > 0 && x.isMatch(b[|b| - 1]) {
      matchRule := b[|b| - 1];
      b := b[..|b| - 1];
    }
    ghost var kept := b;
    var merged := c + a + p + b;
    if matchRule != "" {
      merged := merged + [matchRule];
    } else {
      UniqueHasNoBlank(x, base);
    }
    out := UniqueOrdered(x, merged);
  }

  lemma UniqueHasNoBlank(x: Lexicon, values: seq<string>)
    ensures "" !in Unique(x, values)
  {
  }

  method BuildRules(x: Lexicon, f: Layout, c: Catalog, norm: string -> string, keys: seq<string>, policy: string,
                    custom: seq<string>, additional: seq<string>, providers: seq<string>) returns (out: seq<string>)
    requires Flat(c, x)
    ensures out == Rules(x, f, c, norm, keys, policy, custom, additional, providers)
  {
    var enabled := NormalizeEnabledRuleKeys(c, x, keys);
    var categories := OrderedCategoriesForRules(c, x, enabled);
    var base, trailing := CategoryLines(x, categories);
    base := base + DomesticLines(x, f, enabled);
    base := base + trailing;
    base := base + [x.matchLine(Policy(x, f, policy))];
    out := MergeRuleLists(x, norm, base, custom, additional, providers);
  }

  method CategoryLines(x: Lexicon, categories: seq<Category>) returns (base: seq<string>, trailing: seq<string>)
    ensures base == NormalLines(x, categories) && trailing == TrailingLines(x, categories)
  {
    base, trailing := [], [];
    for i := 0 to |categories|
      invariant base == NormalLines(x, categories[..i]) && trailing == TrailingLines(x, categories[..i])
    {
      assert categories[..i + 1][..i] == categories[..i];
      if categories[i].key == "nonstandard_port" {
        trailing := trailing + Lines(x, categories[i].rules);
        continue;
      }
      base := base + Lines(x, categories[i].rules);
    }
    assert categories[..|categories|] == categories;
  }

  // ---- The MATCH rule stays last ----

  lemma {:induction false} UniqueConcat(x: Lexicon, a: seq<string>, b: seq<string>)
    ensures Unique(x, a) <= Unique(x, a + b)
    ensures |Unique(x, a + b)| > |Unique(x, a)| ==> Mentions(x, b, Unique(x, a + b)[|Unique(x, a + b)| - 1])
    ensures |Unique(x, a + b)| == |Unique(x, a)| ==> forall i | 0 <= i < |b| :: x.trim(b[i]) == "" || x.trim(b[i]) in Unique(x, a)
  {
    if b == [] {
      assert a + b == a;
    } else {
      var init, last := b[..|b| - 1], b[|b| - 1];
      UniqueConcat(x, a, init);
      assert (a + b)[..|a + b| - 1] == a + init;
      forall v ensures Mentions(x, b, v) <==> Mentions(x, init, v) || x.trim(last) == v {
        MentionsLast(x, b, v);
      }
    }
  }

  /** Base rules that end in a MATCH rule not found before it. */
  lemma MergedBase(x: Lexicon, extras: seq<string>, init: seq<string>, m: string)
    requires x.trim(m) == m && m != "" && x.isMatch(m) && !Mentions(x, init, m)
    ensures MergeRules(x, extras, init + [m]) == Unique(x, extras + Unique(x, init) + [m])
  {
    UniqueKeepsLast(x, init, m);
    var b := Unique(x, init + [m]);
    assert b[..|b| - 1] == Unique(x, init);
  }

  predicate EndsIn(values: seq<string>, v: string) {
    values != [] && values[|values| - 1] == v
  }

  /** The MATCH rule stays last exactly when the user's rules do not contain the very same line, or end in it and
      contain every generated rule as well. */
  lemma MatchStaysLastIff(x: Lexicon, extras: seq<string>, init: seq<string>, m: string)
    requires TrimLaws(x) && x.trim(m) == m && m != "" && x.isMatch(m) && !Mentions(x, init, m)
    ensures var merged, own := MergeRules(x, extras, init + [m]), Unique(x, extras);
            EndsIn(merged, m) <==> !Mentions(x, extras, m) || (EndsIn(own, m) && forall v | v in Unique(x, init) :: v in own)
  {
    var base := Unique(x, init);
    MergedBase(x, extras, init, m);
    InUnique(x, init, m);
    UniqueOfTrimmed(x, init);
    MentionsConcat(x, extras, base, m);
    InUnique(x, extras, m);
    if !Mentions(x, extras, m) {
      UniqueKeepsLast(x, extras + base, m);
    } else {
      MatchMovesUnless(x, extras, base, m);
    }
  }

  /** Of values that are already there, nothing is added; otherwise the last value is a new one. */
  lemma UniqueExtends(x: Lexicon, a: seq<string>, b: seq<string>)
    requires forall v | v in b :: x.trim(v) == v && v != ""
    ensures var own, both := Unique(x, a), Unique(x, a + b);
            if forall v | v in b :: v in own then both == own else both != [] && both[|both| - 1] in b && both != own
  {
    var own, both := Unique(x, a), Unique(x, a + b);
    UniqueConcat(x, a, b);
    UniqueIsDistinct(x, a + b);
    if |both| > |own| {
      var last := both[|both| - 1];
      var i :| 0 <= i < |b| && x.trim(b[i]) == last;
      assert b[i] in b;
      assert forall j | 0 <= j < |own| :: own[j] == both[j] != last;
    } else {
      forall v | v in b ensures v in own {
        var i :| 0 <= i < |b| && b[i] == v;
      }
    }
  }

  lemma MatchMovesUnless(x: Lexicon, extras: seq<string>, base: seq<string>, m: string)
    requires m != "" && x.trim(m) == m && Mentions(x, extras, m) && !Mentions(x, base, m)
    requires forall v | v in base :: x.trim(v) == v && v != ""
    ensures var merged, own := Unique(x, extras + base + [m]), Unique(x, extras);
            EndsIn(merged, m) <==> EndsIn(own, m) && forall v | v in base :: v in own
  {
    var front := extras + base;
    MentionsConcat(x, extras, base, m);
    InUnique(x, front, m);
    InUnique(x, extras, m);
    assert (front + [m])[..|front|] == front;
    UniqueExtends(x, extras, base);
    forall v | v in base ensures v != m {
      var i :| 0 <= i < |base| && base[i] == v;
      assert x.trim(base[i]) == v;
    }
  }

  lemma UniqueOfTrimmed(x: Lexicon, values: seq<string>)
    requires TrimLaws(x)
    ensures forall v | v in Unique(x, values) :: x.trim(v) == v && v != ""
  {
  }

  lemma MentionsConcat(x: Lexicon, a: seq<string>, b: seq<string>, v: string)
    ensures Mentions(x, a + b, v) <==> Mentions(x, a, v) || Mentions(x, b, v)
  {
    if Mentions(x, a, v) {
      var i :| 0 <= i < |a| && x.trim(a[i]) == v;
      assert (a + b)[i] == a[i];
    }
    if Mentions(x, b, v) {
      var i :| 0 <= i < |b| && x.trim(b[i]) == v;
      assert (a + b)[|a| + i] == b[i];
    }
    if Mentions(x, a + b, v) {
      var i :| 0 <= i < |a + b| && x.trim((a + b)[i]) == v;
      assert if i < |a| then a[i] == (a + b)[i] else b[i - |a|] == (a + b)[i];
    }
  }

  /** A user rule that repeats the MATCH line, before a single generated rule: MATCH comes first. */
  lemma RepeatedMatchMoves(lower: string -> string)
    ensures var x := Go(lower, "DIRECT", "REJECT");
            MergeRules(x, ["MATCH,DIRECT"], ["RULE-SET,ads,REJECT", "MATCH,DIRECT"]) == ["MATCH,DIRECT", "RULE-SET,ads,REJECT"]
  {
    var x, m, a := Go(lower, "DIRECT", "REJECT"), "MATCH,DIRECT", "RULE-SET,ads,REJECT";
    assert Text.Trimmed(m) && Text.Trimmed(a) && m[..6] == "MATCH," && a[0] != m[0];
    RepeatedMoves(x, m, a);
  }

  lemma RepeatedMoves(x: Lexicon, m: string, a: string)
    requires x.trim(m) == m && x.trim(a) == a && m != "" && a != "" && m != a && x.isMatch(m)
    ensures MergeRules(x, [m], [a, m]) == [m, a]
  {
    TwoLines(x, a, m);
    TwoLines(x, m, a);
    assert [m] + [a] + [m] == [m, a] + [m];
    assert ([m, a] + [m])[..2] == [m, a];
  }

  lemma TwoLines(x: Lexicon, a: string, b: string)
    requires x.trim(a) == a && x.trim(b) == b && a != "" && b != "" && a != b
    ensures Unique(x, [a]) == [a] && Unique(x, [a, b]) == [a, b]
  {
    assert [a][..0] == [] && [a, b][..1] == [a];
  }

  // ---- Rule providers ----

  function PutAll(out: map<string, Provider>, providers: seq<Provider>): map<string, Provider> {
    if providers == [] then out
    else PutAll(out, providers[..|providers| - 1])[providers[|providers| - 1].name := providers[|providers| - 1]]
  }

  function CatalogProviders(categories: seq<Category>): map<string, Provider> {
    if categories == [] then map[]
    else PutAll(CatalogProviders(categories[..|categories| - 1]), categories[|categories| - 1].providers)
  }

  /** `buildRuleProviders`; `extra` holds the user's enabled providers and those of custom rules, by name. */
  method BuildRuleProviders(c: Catalog, x: Lexicon, keys: seq<string>, extra: seq<Provider>) returns (out: map<string, Provider>)
    requires Flat(c, x)
    ensures out == PutAll(CatalogProviders(Ordered(c, x, keys)), extra)
  {
    var categories := OrderedByOrder(c, x, keys, c.order);
    out := map[];
    for i := 0 to |categories|
      invariant out == CatalogProviders(categories[..i])
    {
      assert categories[..i + 1][..i] == categories[..i];
      out := PutProviders(out, categories[i].providers);
    }
    assert categories[..|categories|] == categories;
    out := PutProviders(out, extra);
  }

  /** Later providers replace earlier ones of the same name. */
  lemma {:induction false} PutAllMerges(start: map<string, Provider>, providers: seq<Provider>)
    ensures PutAll(start, providers) == start + PutAll(map[], providers)
  {
    if providers != [] {
      PutAllMerges(start, providers[..|providers| - 1]);
    }
  }

  method PutProviders(start: map<string, Provider>, providers: seq<Provider>) returns (out: map<string, Provider>)
    ensures out == PutAll(start, providers)
  {
    out := start;
    for i := 0 to |providers|
      invariant out == PutAll(start, providers[..i])
    {
      assert providers[..i + 1][..i] == providers[..i];
      out := out[providers[i].name := providers[i]];
    }
    assert providers[..|providers|] == providers;
  }

  ghost predicate Offers(categories: seq<Category>, p: Provider) {
    exists c :: c in categories && p in c.providers
  }

  lemma {:induction false} PutAllMembers(start: map<string, Provider>, providers: seq<Provider>)
    ensures var out := PutAll(start, providers);
            && (forall n | n in out :: (out[n] in providers && out[n].name == n) || (n in start && out[n] == start[n]))
            && (forall n | n in start :: n in out) && (forall p | p in providers :: p.name in out)
  {
    if providers != [] {
      PutAllMembers(start, providers[..|providers| - 1]);
      assert providers == providers[..|providers| - 1] + [providers[|providers| - 1]];
    }
  }

  /** Every provider is a category's, under its own name, and every category's provider is there by name. */
  lemma {:induction false} CatalogProvidersMembers(categories: seq<Category>)
    ensures var out := CatalogProviders(categories);
            && (forall n | n in out :: out[n].name == n && Offers(categories, out[n]))
            && (forall p | Offers(categories, p) :: p.name in out)
  {
    if categories != [] {
      var init, c := categories[..|categories| - 1], categories[|categories| - 1];
      CatalogProvidersMembers(init);
      PutAllMembers(CatalogProviders(init), c.providers);
      forall p ensures Offers(categories, p) <==> Offers(init, p) || p in c.providers {
        assert categories == init + [c];
        if Offers(init, p) {
          var d :| d in init && p in d.providers;
          assert d in categories;
        }
        if p in c.providers {
          assert c in categories;
        }
      }
    }
  }
}
