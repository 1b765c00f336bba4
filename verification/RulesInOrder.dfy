/** In which order the rules are written, of which the first that matches a connection decides: places in the lists they come from. */
module RulesInOrder {
  import opened RuleText
  import opened RuleCatalog
  import opened ProxyGroups
  import opened RuleBuilder
  import opened CustomRules
  import opened PlannedGroups
  import opened GeneratedConfig
  import opened GeneratorLint

  ghost predicate Climbs(at: seq<nat>) {
    forall i, j | 0 <= i < j < |at| :: at[i] < at[j]
  }

  // ---- Which order is used ----

  /** The places, in order, of the keys that are not dropped. */
  ghost predicate KeepsPlaces(order: seq<string>, dropped: seq<string>, at: seq<nat>, rest: seq<string>) {
    && Climbs(at) && |at| == |rest| && (forall i | 0 <= i < |at| :: at[i] < |order| && rest[i] == order[at[i]])
    && forall j :: j in at <==> 0 <= j < |order| && order[j] !in dropped
  }

  lemma PlacesGrow(order: seq<string>, dropped: seq<string>, at: seq<nat>, rest: seq<string>)
    requires order != [] && KeepsPlaces(order[..|order| - 1], dropped, at, rest)
    ensures order[|order| - 1] in dropped ==> KeepsPlaces(order, dropped, at, rest)
    ensures order[|order| - 1] !in dropped ==> KeepsPlaces(order, dropped, at + [|order| - 1], rest + [order[|order| - 1]])
  {
    var last := |order| - 1;
    assert forall i | 0 <= i < |at| :: at[i] in at && order[..last][at[i]] == order[at[i]];
  }

  lemma {:induction false} ExceptKeepsPlaces(order: seq<string>, dropped: seq<string>) returns (at: seq<nat>)
    ensures KeepsPlaces(order, dropped, at, Except(order, dropped))
  {
    at := [];
    if order != [] {
      var last := |order| - 1;
      at := ExceptKeepsPlaces(order[..last], dropped);
      PlacesGrow(order, dropped, at, Except(order[..last], dropped));
      assert Except(order[..last], dropped) + [] == Except(order[..last], dropped);
      if order[last] !in dropped {
        at := at + [last];
      }
    }
  }

  /** Everything enabled: the full order. One of the triggers enabled: the front keys, then all others in their order.
      Otherwise the plain order. */
  lemma OrderIs(c: Catalog, enabled: seq<string>) returns (at: seq<nat>)
    ensures |enabled| == |c.table| ==> RuleOrder(c, enabled) == c.fullOrder
    ensures |enabled| != |c.table| && (forall k | k in c.frontIf :: k !in enabled) ==> RuleOrder(c, enabled) == c.order
    ensures |enabled| != |c.table| && (exists k :: k in c.frontIf && k in enabled) ==>
              var order := RuleOrder(c, enabled);
              c.front <= order && KeepsPlaces(c.order, c.front, at, order[|c.front|..])
  {
    at := ExceptKeepsPlaces(c.order, c.front);
  }

  // ---- Categories ----

  /** The categories are those enabled, in the places where the order has them. */
  ghost predicate Placed(c: Catalog, enabled: seq<string>, order: seq<string>, at: seq<nat>, categories: seq<Category>) {
    && Climbs(at) && |at| == |categories|
    && (forall i | 0 <= i < |at| :: at[i] < |order| && order[at[i]] in c.table && categories[i] == c.table[order[at[i]]])
    && forall j :: j in at <==> 0 <= j < |order| && order[j] in enabled && order[j] in c.table
  }

  lemma {:induction false} InOrderIsPlaced(c: Catalog, enabled: seq<string>, order: seq<string>) returns (at: seq<nat>)
    ensures Placed(c, enabled, order, at, InOrder(c, enabled, order))
  {
    at := [];
    if order != [] {
      var last := |order| - 1;
      at := InOrderIsPlaced(c, enabled, order[..last]);
      assert forall i | 0 <= i < |at| :: at[i] in at && order[..last][at[i]] == order[at[i]];
      assert at + [] == at;
      at := at + if order[last] in enabled && order[last] in c.table then [last] else [];
    }
  }

  // ---- Rules ----

  /** Where a base rule comes from: an ordinary category's rule, the one for domestic traffic, a rule for unusual ports. */
  datatype Origin = Ordinary(category: nat, rule: nat) | Domestic | Ports(category: nat, rule: nat)

  function Rank(o: Origin): nat {
    match o case Ordinary(_, _) => 0 case Domestic => 1 case Ports(_, _) => 2
  }

  ghost predicate Precedes(a: Origin, b: Origin) {
    || Rank(a) < Rank(b)
    || (Rank(a) == Rank(b) && !a.Domestic? && (a.category < b.category || (a.category == b.category && a.rule < b.rule)))
  }

  ghost predicate InOriginOrder(os: seq<Origin>) {
    forall i, j | 0 <= i < j < |os| :: Precedes(os[i], os[j])
  }

  ghost predicate RuleAt(x: Lexicon, categories: seq<Category>, category: nat, rule: nat, line: string) {
    category < |categories| && rule < |categories[category].rules| && line == x.ruleSet(categories[category].rules[rule])
  }

  /** The line is the rule at its origin. */
  ghost predicate Originates(x: Lexicon, f: Layout, categories: seq<Category>, enabled: seq<string>, o: Origin, line: string) {
    match o
    case Ordinary(category, rule) => RuleAt(x, categories, category, rule, line) && categories[category].key != "nonstandard_port"
    case Domestic => "domestic" in enabled && line == x.ruleSet(Spec(f.cnProvider, f.domesticTarget, false))
    case Ports(category, rule) => RuleAt(x, categories, category, rule, line) && categories[category].key == "nonstandard_port"
  }

  ghost predicate AllOriginate(x: Lexicon, f: Layout, categories: seq<Category>, enabled: seq<string>, os: seq<Origin>, lines: seq<string>) {
    |os| == |lines| && InOriginOrder(os) && forall i | 0 <= i < |os| :: Originates(x, f, categories, enabled, os[i], lines[i])
  }

  /** All origins are of one kind, in the first categories. */
  ghost predicate Within(os: seq<Origin>, rank: nat, n: nat) {
    rank != 1 && forall i | 0 <= i < |os| :: Rank(os[i]) == rank && os[i].category < n
  }

  ghost function OriginsOf(category: nat, rules: nat, ports: bool): seq<Origin> {
    seq(rules, r requires 0 <= r < rules => if ports then Ports(category, r) else Ordinary(category, r))
  }

  lemma OneMoreCategory(x: Lexicon, f: Layout, categories: seq<Category>, enabled: seq<string>, os: seq<Origin>, lines: seq<string>, ports: bool)
    requires categories != [] && var last := |categories| - 1;
               && AllOriginate(x, f, categories[..last], enabled, os, lines) && Within(os, if ports then 2 else 0, last)
               && (ports <==> categories[last].key == "nonstandard_port")
    ensures var d := categories[|categories| - 1];
            var more := os + OriginsOf(|categories| - 1, |d.rules|, ports);
            AllOriginate(x, f, categories, enabled, more, lines + Lines(x, d.rules)) && Within(more, if ports then 2 else 0, |categories|)
  {
  }

  lemma OneSkipped(x: Lexicon, f: Layout, categories: seq<Category>, enabled: seq<string>, os: seq<Origin>, lines: seq<string>, rank: nat)
    requires categories != [] && AllOriginate(x, f, categories[..|categories| - 1], enabled, os, lines) && Within(os, rank, |categories| - 1)
    ensures AllOriginate(x, f, categories, enabled, os, lines) && Within(os, rank, |categories|)
  {
  }

  lemma {:induction false} NormalOrigins(x: Lexicon, f: Layout, categories: seq<Category>, enabled: seq<string>) returns (os: seq<Origin>)
    ensures AllOriginate(x, f, categories, enabled, os, NormalLines(x, categories)) && Within(os, 0, |categories|)
  {
    os := [];
    if categories != [] {
      var init, d := categories[..|categories| - 1], categories[|categories| - 1];
      os := NormalOrigins(x, f, init, enabled);
      if d.key == "nonstandard_port" {
        OneSkipped(x, f, categories, enabled, os, NormalLines(x, init), 0);
        assert NormalLines(x, init) + [] == NormalLines(x, init);
      } else {
        OneMoreCategory(x, f, categories, enabled, os, NormalLines(x, init), false);
        os := os + OriginsOf(|init|, |d.rules|, false);
      }
    }
  }

  lemma {:induction false} TrailingOrigins(x: Lexicon, f: Layout, categories: seq<Category>, enabled: seq<string>) returns (os: seq<Origin>)
    ensures AllOriginate(x, f, categories, enabled, os, TrailingLines(x, categories)) && Within(os, 2, |categories|)
  {
    os := [];
    if categories != [] {
      var init, d := categories[..|categories| - 1], categories[|categories| - 1];
      os := TrailingOrigins(x, f, init, enabled);
      if d.key != "nonstandard_port" {
        OneSkipped(x, f, categories, enabled, os, TrailingLines(x, init), 2);
        assert TrailingLines(x, init) + [] == TrailingLines(x, init);
      } else {
        OneMoreCategory(x, f, categories, enabled, os, TrailingLines(x, init), true);
        os := os + OriginsOf(|init|, |d.rules|, true);
      }
    }
  }

  lemma JoinOrigins(x: Lexicon, f: Layout, categories: seq<Category>, enabled: seq<string>, a: seq<Origin>, p: seq<string>, b: seq<Origin>, q: seq<string>)
    requires AllOriginate(x, f, categories, enabled, a, p) && AllOriginate(x, f, categories, enabled, b, q)
    requires forall i, j | 0 <= i < |a| && 0 <= j < |b| :: Rank(a[i]) < Rank(b[j])
    ensures AllOriginate(x, f, categories, enabled, a + b, p + q)
  {
  }

  /** The base rules: those of the ordinary categories in their order, then the one for domestic traffic if that is
      enabled, then those for unusual ports. */
  lemma BaseRulesInOrder(x: Lexicon, f: Layout, c: Catalog, keys: seq<string>) returns (os: seq<Origin>)
    requires Flat(c, x)
    ensures AllOriginate(x, f, OrderedForRules(c, x, NormalizeKeys(c, x, keys)), NormalizeKeys(c, x, keys), os, BaseRules(x, f, c, keys))
  {
    var enabled := NormalizeKeys(c, x, keys);
    var categories := OrderedForRules(c, x, enabled);
    var first := NormalOrigins(x, f, categories, enabled);
    var last := TrailingOrigins(x, f, categories, enabled);
    var middle: seq<Origin> := if "domestic" in enabled then [Domestic] else [];
    JoinOrigins(x, f, categories, enabled, first, NormalLines(x, categories), middle, DomesticLines(x, f, enabled));
    JoinOrigins(x, f, categories, enabled, first + middle, NormalLines(x, categories) + DomesticLines(x, f, enabled), last, TrailingLines(x, categories));
    os := first + middle + last;
  }

  // ---- The last rule ----

  /** The target of the final rule: the final group unless another policy is asked for; short names stand for two groups. */
  ghost predicate FinalTarget(x: Lexicon, f: Layout, policy: string, t: string) {
    var p := x.trim(policy);
    if p == "" || p == f.finalAlias then t == f.names.finalGroup else if p == f.selectAlias then t == f.names.nodeSelect else t == p
  }

  lemma PolicyIsFinalTarget(x: Lexicon, f: Layout, policy: string, t: string)
    ensures FinalTarget(x, f, policy, t) <==> t == Policy(x, f, policy)
  {
  }

  /** What is new in a list follows what it is appended to. */
  lemma {:induction false} UniqueAppends(x: Lexicon, a: seq<string>, b: seq<string>) returns (rest: seq<string>)
    ensures Unique(x, a + b) == Unique(x, a) + rest && forall v | v in rest :: v !in Unique(x, a)
  {
    rest := [];
    if b == [] {
      assert a + b == a;
    } else {
      var last := |b| - 1;
      rest := UniqueAppends(x, a, b[..last]);
      assert (a + b)[..|a + b| - 1] == a + b[..last] && (a + b)[|a + b| - 1] == b[last];
      var v := x.trim(b[last]);
      if v != "" && v !in Unique(x, a + b[..last]) {
        rest := rest + [v];
      }
    }
  }

  ghost predicate CustomLine(out: seq<Compiled>, line: string) {
    exists n :: 0 <= n < |out| && out[n].line != "" && out[n].line == line
  }

  /** The rules of custom rules come first, then the base rules, and the final rule last. */
  lemma FinalRuleIs(x: Lexicon, f: Layout, c: Catalog, norm: string -> string, keys: seq<string>, policy: string, out: seq<Compiled>, t: string, i: nat, j: nat)
    requires Lawful(x) && WellFormed(x, f, c) && PlainRules(x, norm, out) && FinalTarget(x, f, policy, t)
    requires forall n | 0 <= n < |out| && out[n].line != "" :: RuleLine(x, out[n].line)
    ensures var rules := Rules(x, f, c, norm, keys, policy, CustomLines(out), [], []);
            && rules != [] && rules[|rules| - 1] == x.matchLine(t)
            && (i < j < |rules| - 1 && CustomLine(out, rules[j]) ==> CustomLine(out, rules[i]))
  {
    var front, m := RulesAre(x, f, c, norm, keys, policy, out);
    PolicyIsFinalTarget(x, f, policy, t);
    CustomLead(x, norm, out, Unique(x, BaseRules(x, f, c, keys)), i, j);
  }

  lemma LeadComesFirst(x: Lexicon, custom: seq<string>, base: seq<string>, i: nat, j: nat)
    ensures var front := Unique(x, custom + base); i < j < |front| && front[j] in Unique(x, custom) ==> front[i] in Unique(x, custom)
  {
    var rest := UniqueAppends(x, custom, base);
    var front, lead := Unique(x, custom + base), Unique(x, custom);
    assert forall k | |lead| <= k < |front| :: front[k] == rest[k - |lead|] && rest[k - |lead|] in rest;
    assert forall k | 0 <= k < |lead| :: front[k] == lead[k] && lead[k] in lead;
  }

  lemma CustomLead(x: Lexicon, norm: string -> string, out: seq<Compiled>, base: seq<string>, i: nat, j: nat)
    requires TrimLaws(x) && RuleLaws(x) && PlainRules(x, norm, out)
    requires forall n | 0 <= n < |out| && out[n].line != "" :: RuleLine(x, out[n].line)
    ensures var front := Unique(x, Extras(x, norm, CustomLines(out), [], []) + base);
            i < j < |front| && CustomLine(out, front[j]) ==> CustomLine(out, front[i])
  {
    var custom := Extras(x, norm, CustomLines(out), [], []);
    ExtrasAre(x, norm, out);
    UniqueLines(x, custom);
    LeadComesFirst(x, custom, base, i, j);
  }
}
