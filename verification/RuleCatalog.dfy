/** The rule catalog as an abstract table: which categories a list of enabled keys stands for, and in which order
    each of the three builders sees them (`internal/renderer/rule_catalog.go`). */
module RuleCatalog {
  import opened Common
  import opened RuleText

  datatype Provider = Provider(name: string, path: string, behavior: string, format: string)

  datatype Category = Category(key: string, groupName: string, providers: seq<Provider>, rules: seq<Spec>)

  /** The tables and the names the code singles out. */
  datatype Catalog = Catalog(
    table: map<string, Category>,
    order: seq<string>,              // ruleOutputOrder
    fullOrder: seq<string>,          // ruleFullOutputOrder
    front: seq<string>,              // moved to the front of the rules ...
    frontIf: set<string>,            // ... when one of these is enabled
    expansions: map<string, seq<string>>,
    presets: map<string, seq<string>>)

  // ---- Enabled keys ----

  /** Expansions do not lead to further expansions, except to themselves. */
  ghost predicate Flat(c: Catalog, x: Lexicon) {
    && (forall k | k in c.expansions :: x.lower(k) == k)
    && (forall k, i | k in c.expansions && 0 <= i < |c.expansions[k]| :: c.expansions[k][i] == k || x.lower(c.expansions[k][i]) !in c.expansions)
  }

  function AddKey(c: Catalog, out: seq<string>, key: string): seq<string> {
    if key in c.table && key !in out then out + [key] else out
  }

  /** `visit`. It terminates because expansions are flat. */
  function Visit(c: Catalog, x: Lexicon, out: seq<string>, key: string): seq<string>
    requires Flat(c, x)
    decreases if x.lower(key) in c.expansions then 2 else 0, 0
  {
    var k := x.lower(key);
    if k == "" then out
    else if k in c.expansions then VisitItems(c, x, out, k, c.expansions[k])
    else AddKey(c, out, k)
  }

  function VisitItems(c: Catalog, x: Lexicon, out: seq<string>, k: string, items: seq<string>): seq<string>
    requires Flat(c, x) && forall i | 0 <= i < |items| :: items[i] == k || x.lower(items[i]) !in c.expansions
    decreases 1, |items|
  {
    if items == [] then out
    else
      var init, item := items[..|items| - 1], items[|items| - 1];
      var before := VisitItems(c, x, out, k, init);
      if item == k then AddKey(c, before, item) else Visit(c, x, before, item)
  }

  /** `normalizeEnabledRuleKeys`. */
  function NormalizeKeys(c: Catalog, x: Lexicon, keys: seq<string>): seq<string>
    requires Flat(c, x)
  {
    if keys == [] then [] else Visit(c, x, NormalizeKeys(c, x, keys[..|keys| - 1]), keys[|keys| - 1])
  }

  method VisitKey(c: Catalog, x: Lexicon, out: seq<string>, seen: set<string>, key: string) returns (out': seq<string>, seen': set<string>)
    requires Flat(c, x) && forall k :: k in seen <==> k in out
    ensures out' == Visit(c, x, out, key) && forall k :: k in seen' <==> k in out'
    decreases if x.lower(key) in c.expansions then 1 else 0
  {
    out', seen' := out, seen;
    var k := x.lower(key);
    if k == "" {
      return;
    }
    if k in c.expansions {
      var items := c.expansions[k];
      for i := 0 to |items|
        invariant out' == VisitItems(c, x, out, k, items[..i])
        invariant forall k :: k in seen' <==> k in out'
      {
        assert items[..i + 1][..i] == items[..i];
        var item := items[i];
        if item == k {
          if item in c.table && item !in seen' {
            seen', out' := seen' + {item}, out' + [item];
          }
          continue;
        }
        out', seen' := VisitKey(c, x, out', seen', item);
      }
      assert items[..|items|] == items;
      return;
    }
    if k !in c.table || k in seen {
      return;
    }
    seen', out' := seen + {k}, out + [k];
  }

  method NormalizeEnabledRuleKeys(c: Catalog, x: Lexicon, keys: seq<string>) returns (out: seq<string>)
    requires Flat(c, x)
    ensures out == NormalizeKeys(c, x, keys)
  {
    out := [];
    var seen: set<string> := {};
    for i := 0 to |keys|
      invariant out == NormalizeKeys(c, x, keys[..i])
      invariant forall k :: k in seen <==> k in out
    {
      assert keys[..i + 1][..i] == keys[..i];
      out, seen := VisitKey(c, x, out, seen, keys[i]);
    }
    assert keys[..|keys|] == keys;
  }

  // ---- Normalising once is enough ----

  /** A key that expands to itself does so last. */
  ghost predicate SelfLast(c: Catalog) {
    forall k, i | k in c.expansions && 0 <= i < |c.expansions[k]| && c.expansions[k][i] == k :: i == |c.expansions[k]| - 1
  }

  ghost predicate KeysNormal(c: Catalog, x: Lexicon) {
    forall k | k in c.table :: x.lower(k) == k && k != ""
  }

  ghost predicate AllSettled(c: Catalog, x: Lexicon, out: seq<string>)
    requires Flat(c, x)
  {
    && Distinct(out)
    && (forall i | 0 <= i < |out| :: out[i] in c.table && SettledAt(c, x, out, i))
  }

  /** The key at an index is no expansion, or it is the last item of its own, whose other items come before. */
  ghost predicate SettledAt(c: Catalog, x: Lexicon, out: seq<string>, i: nat)
    requires i < |out|
  {
    out[i] in c.expansions ==>
      var items := c.expansions[out[i]];
      && items != [] && items[|items| - 1] == out[i]
      && forall j | 0 <= j < |items| - 1 :: Done(c, x, out[..i], items[j])
  }

  ghost predicate Done(c: Catalog, x: Lexicon, out: seq<string>, item: string) {
    var k := x.lower(item);
    k == "" || k !in c.table || k in out
  }

  lemma AddSettled(c: Catalog, x: Lexicon, out: seq<string>, key: string)
    requires Flat(c, x) && AllSettled(c, x, out) && key in c.table && key !in out
    requires SettledAt(c, x, out + [key], |out|)
    ensures AllSettled(c, x, out + [key])
  {
    var next := out + [key];
    forall i | 0 <= i < |next| ensures next[i] in c.table && SettledAt(c, x, next, i) {
      if i < |out| {
        assert next[i] == out[i] && next[..i] == out[..i];
        assert SettledAt(c, x, out, i);
      }
    }
  }

  /** Visiting a key that is no expansion. */
  lemma VisitPlain(c: Catalog, x: Lexicon, out: seq<string>, key: string)
    requires Flat(c, x) && AllSettled(c, x, out) && x.lower(key) !in c.expansions
    ensures AllSettled(c, x, Visit(c, x, out, key)) && out <= Visit(c, x, out, key)
    ensures Done(c, x, Visit(c, x, out, key), key)
  {
    var k := x.lower(key);
    if k != "" && k in c.table && k !in out {
      AddSettled(c, x, out, k);
    }
  }

  lemma {:induction false} VisitItemsSettles(c: Catalog, x: Lexicon, out: seq<string>, k: string, items: seq<string>)
    requires Flat(c, x) && AllSettled(c, x, out)
    requires forall i | 0 <= i < |items| :: x.lower(items[i]) !in c.expansions
    requires k in c.expansions && x.lower(k) == k
    ensures var next := VisitItems(c, x, out, k, items);
            AllSettled(c, x, next) && out <= next && forall i | 0 <= i < |items| :: Done(c, x, next, items[i])
  {
    if items != [] {
      var init, item := items[..|items| - 1], items[|items| - 1];
      VisitItemsSettles(c, x, out, k, init);
      var before := VisitItems(c, x, out, k, init);
      assert x.lower(item) !in c.expansions;
      assert item != k;
      VisitPlain(c, x, before, item);
      assert forall i | 0 <= i < |init| :: init[i] == items[i] && Done(c, x, before, init[i]);
    }
  }

  lemma VisitSettles(c: Catalog, x: Lexicon, out: seq<string>, key: string)
    requires Flat(c, x) && SelfLast(c) && AllSettled(c, x, out)
    ensures AllSettled(c, x, Visit(c, x, out, key))
  {
    var k := x.lower(key);
    if k != "" && k in c.expansions {
      var items := c.expansions[k];
      if items != [] && items[|items| - 1] == k {
        var init := items[..|items| - 1];
        assert forall i | 0 <= i < |init| :: init[i] == items[i] && x.lower(init[i]) !in c.expansions;
        VisitItemsSettles(c, x, out, k, init);
        var before := VisitItems(c, x, out, k, init);
        if k in c.table && k !in before {
          assert (before + [k])[..|before|] == before;
          AddSettled(c, x, before, k);
        }
      } else {
        assert forall i | 0 <= i < |items| :: items[i] != k;
        VisitItemsSettles(c, x, out, k, items);
      }
    } else if k != "" {
      VisitPlain(c, x, out, key);
    }
  }

  lemma {:induction false} NormalizeSettles(c: Catalog, x: Lexicon, keys: seq<string>)
    requires Flat(c, x) && SelfLast(c)
    ensures AllSettled(c, x, NormalizeKeys(c, x, keys))
  {
    if keys != [] {
      NormalizeSettles(c, x, keys[..|keys| - 1]);
      VisitSettles(c, x, NormalizeKeys(c, x, keys[..|keys| - 1]), keys[|keys| - 1]);
    }
  }

  lemma {:induction false} DoneItemsAddNothing(c: Catalog, x: Lexicon, out: seq<string>, k: string, items: seq<string>)
    requires Flat(c, x)
    requires forall i | 0 <= i < |items| :: items[i] != k && x.lower(items[i]) !in c.expansions && Done(c, x, out, items[i])
    ensures VisitItems(c, x, out, k, items) == out
  {
    if items != [] {
      DoneItemsAddNothing(c, x, out, k, items[..|items| - 1]);
      assert Done(c, x, out, items[|items| - 1]);
    }
  }

  /** Visiting the next key of a settled list, after the keys before it, adds that key. */
  lemma VisitNext(c: Catalog, x: Lexicon, out: seq<string>, i: nat)
    requires Flat(c, x) && SelfLast(c) && KeysNormal(c, x) && AllSettled(c, x, out) && i < |out|
    ensures Visit(c, x, out[..i], out[i]) == out[..i + 1]
  {
    var k := out[i];
    assert SettledAt(c, x, out, i) && k in c.table && x.lower(k) == k;
    assert k !in out[..i];
    if k in c.expansions {
      var items := c.expansions[k];
      var init := items[..|items| - 1];
      assert forall j | 0 <= j < |init| :: init[j] == items[j] && init[j] != k;
      DoneItemsAddNothing(c, x, out[..i], k, init);
    }
    assert out[..i + 1] == out[..i] + [k];
  }

  lemma {:induction false} NormalizePrefix(c: Catalog, x: Lexicon, out: seq<string>, i: nat)
    requires Flat(c, x) && SelfLast(c) && KeysNormal(c, x) && AllSettled(c, x, out) && i <= |out|
    ensures NormalizeKeys(c, x, out[..i]) == out[..i]
  {
    if i > 0 {
      NormalizePrefix(c, x, out, i - 1);
      assert out[..i][..i - 1] == out[..i - 1];
      VisitNext(c, x, out, i - 1);
    }
  }

  /** Each builder normalises the keys again; that changes neither the keys nor their order. */
  lemma NormalizeIsIdempotent(c: Catalog, x: Lexicon, keys: seq<string>)
    requires Flat(c, x) && SelfLast(c) && KeysNormal(c, x)
    ensures NormalizeKeys(c, x, NormalizeKeys(c, x, keys)) == NormalizeKeys(c, x, keys)
  {
    NormalizeSettles(c, x, keys);
    var out := NormalizeKeys(c, x, keys);
    NormalizePrefix(c, x, out, |out|);
    assert out[..|out|] == out;
  }

  // ---- Categories in order ----

  function InOrder(c: Catalog, enabled: seq<string>, order: seq<string>): seq<Category> {
    if order == [] then []
    else
      var k := order[|order| - 1];
      InOrder(c, enabled, order[..|order| - 1]) + if k in enabled && k in c.table then [c.table[k]] else []
  }

  /** `orderedRuleCategoriesByOrder`. */
  method OrderedByOrder(c: Catalog, x: Lexicon, keys: seq<string>, order: seq<string>) returns (out: seq<Category>)
    requires Flat(c, x)
    ensures out == InOrder(c, NormalizeKeys(c, x, keys), order)
  {
    var enabled := NormalizeEnabledRuleKeys(c, x, keys);
    out := [];
    for i := 0 to |order|
      invariant out == InOrder(c, enabled, order[..i])
    {
      assert order[..i + 1][..i] == order[..i];
      if order[i] !in enabled {
        continue;
      }
      if order[i] in c.table {
        out := out + [c.table[order[i]]];
      }
    }
    assert order[..|order|] == order;
  }

  /** `orderedRuleCategories`: the order of groups and providers. */
  function Ordered(c: Catalog, x: Lexicon, keys: seq<string>): seq<Category>
    requires Flat(c, x)
  {
    InOrder(c, NormalizeKeys(c, x, keys), c.order)
  }

  function Except(order: seq<string>, dropped: seq<string>): seq<string> {
    if order == [] then []
    else Except(order[..|order| - 1], dropped) + if order[|order| - 1] in dropped then [] else [order[|order| - 1]]
  }

  /** The order of rules: the full order when everything is enabled, or some keys moved to the front. */
  function RuleOrder(c: Catalog, enabled: seq<string>): seq<string> {
    if |enabled| == |c.table| then c.fullOrder
    else if exists k :: k in c.frontIf && k in enabled then c.front + Except(c.order, c.front)
    else c.order
  }

  /** `orderedRuleCategoriesForRules`. */
  function OrderedForRules(c: Catalog, x: Lexicon, keys: seq<string>): seq<Category>
    requires Flat(c, x)
  {
    var enabled := NormalizeKeys(c, x, keys);
    InOrder(c, NormalizeKeys(c, x, enabled), RuleOrder(c, enabled))
  }

  method OrderedCategoriesForRules(c: Catalog, x: Lexicon, keys: seq<string>) returns (out: seq<Category>)
    requires Flat(c, x)
    ensures out == OrderedForRules(c, x, keys)
  {
    var enabled := NormalizeEnabledRuleKeys(c, x, keys);
    var order := c.order;
    if |enabled| == |c.table| {
      order := c.fullOrder;
    } else if exists k :: k in c.frontIf && k in enabled {
      order := c.front;
      for i := 0 to |c.order|
        invariant order == c.front + Except(c.order[..i], c.front)
      {
        assert c.order[..i + 1][..i] == c.order[..i];
        if c.order[i] in c.front {
          continue;
        }
        order := order + [c.order[i]];
      }
      assert c.order[..|c.order|] == c.order;
    }
    out := OrderedByOrder(c, x, enabled, order);
  }

  /** `resolveEnabledRules`, of a mode already trimmed and lower-cased. */
  function ResolveEnabled(c: Catalog, x: Lexicon, mode: string, fullMode: string, keys: seq<string>): seq<string>
    requires Flat(c, x)
  {
    if mode == fullMode then Unique(x, c.fullOrder)
    else if mode in c.presets then NormalizeKeys(c, x, c.presets[mode])
    else NormalizeKeys(c, x, keys)
  }

  /** Both orders list every category. */
  ghost predicate OrdersCover(c: Catalog) {
    && (forall k | k in c.table :: k in c.order && k in c.fullOrder)
    && (forall k | k in c.expansions && k in c.table :: k in c.expansions[k])
  }

  lemma {:induction false} InOrderMembers(c: Catalog, enabled: seq<string>, order: seq<string>, category: Category)
    ensures category in InOrder(c, enabled, order) <==> exists k :: k in order && k in enabled && k in c.table && c.table[k] == category
  {
    if order != [] {
      InOrderMembers(c, enabled, order[..|order| - 1], category);
      assert order == order[..|order| - 1] + [order[|order| - 1]];
    }
  }

  lemma {:induction false} ExceptMembers(order: seq<string>, dropped: seq<string>)
    ensures forall k :: k in Except(order, dropped) <==> k in order && k !in dropped
  {
    if order != [] {
      ExceptMembers(order[..|order| - 1], dropped);
      assert order == order[..|order| - 1] + [order[|order| - 1]];
    }
  }

  /** Rules come from exactly the categories that groups and providers come from, whatever order is used. */
  lemma SameCategories(c: Catalog, x: Lexicon, keys: seq<string>, category: Category)
    requires Flat(c, x) && SelfLast(c) && KeysNormal(c, x) && OrdersCover(c)
    ensures category in OrderedForRules(c, x, keys) <==> category in Ordered(c, x, keys)
    ensures category in Ordered(c, x, keys) <==> exists k :: k in NormalizeKeys(c, x, keys) && k in c.table && c.table[k] == category
  {
    var enabled := NormalizeKeys(c, x, keys);
    NormalizeIsIdempotent(c, x, keys);
    InOrderMembers(c, enabled, c.order, category);
    InOrderMembers(c, enabled, RuleOrder(c, enabled), category);
    ExceptMembers(c.order, c.front);
    assert forall k | k in c.table :: k in RuleOrder(c, enabled);
  }

  // ---- Full mode ----

  lemma {:induction false} NormalizeKeepsKeys(c: Catalog, x: Lexicon, keys: seq<string>, k: string)
    requires Flat(c, x) && SelfLast(c) && KeysNormal(c, x) && OrdersCover(c) && k in c.table && k in keys
    ensures k in NormalizeKeys(c, x, keys)
  {
    var init, last := keys[..|keys| - 1], keys[|keys| - 1];
    NormalizeSettles(c, x, init);
    var before := NormalizeKeys(c, x, init);
    if k in init {
      NormalizeKeepsKeys(c, x, init, k);
      VisitKeeps(c, x, before, last, k);
    } else {
      assert keys == init + [last];
      VisitAdds(c, x, before, k);
    }
  }

  lemma {:induction false} VisitItemsKeeps(c: Catalog, x: Lexicon, out: seq<string>, e: string, items: seq<string>, k: string)
    requires Flat(c, x) && (forall i | 0 <= i < |items| :: items[i] == e || x.lower(items[i]) !in c.expansions)
    requires k in out
    ensures k in VisitItems(c, x, out, e, items)
  {
    if items != [] {
      VisitItemsKeeps(c, x, out, e, items[..|items| - 1], k);
    }
  }

  lemma VisitKeeps(c: Catalog, x: Lexicon, out: seq<string>, key: string, k: string)
    requires Flat(c, x) && k in out
    ensures k in Visit(c, x, out, key)
  {
    var e := x.lower(key);
    if e != "" && e in c.expansions {
      VisitItemsKeeps(c, x, out, e, c.expansions[e], k);
    }
  }

  lemma VisitAdds(c: Catalog, x: Lexicon, out: seq<string>, k: string)
    requires Flat(c, x) && SelfLast(c) && KeysNormal(c, x) && OrdersCover(c) && k in c.table
    ensures k in Visit(c, x, out, k)
  {
  }

  lemma {:induction false} DistinctFills(out: seq<string>, all: set<string>)
    requires Distinct(out) && (forall k | k in out :: k in all) && (forall k | k in all :: k in out)
    ensures |out| == |all|
  {
    if out == [] {
      assert all == {};
    } else {
      var init, last := out[..|out| - 1], out[|out| - 1];
      assert out == init + [last];
      DistinctFills(init, all - {last});
    }
  }

  /** The full mode enables every category, so its rules come in the full order. */
  lemma FullModeIsEverything(c: Catalog, x: Lexicon, fullMode: string, keys: seq<string>)
    requires Flat(c, x) && SelfLast(c) && KeysNormal(c, x) && OrdersCover(c)
    requires forall k | k in c.table :: x.trim(k) == k
    ensures var enabled := NormalizeKeys(c, x, ResolveEnabled(c, x, fullMode, fullMode, keys));
            |enabled| == |c.table| && RuleOrder(c, enabled) == c.fullOrder && forall k :: k in enabled <==> k in c.table
  {
    var full := Unique(x, c.fullOrder);
    NormalizeSettles(c, x, full);
    var enabled := NormalizeKeys(c, x, full);
    forall k | k in c.table ensures k in enabled {
      FullOrderHas(c, x, k);
      NormalizeKeepsKeys(c, x, full, k);
    }
    DistinctFills(enabled, c.table.Keys);
  }

  lemma FullOrderHas(c: Catalog, x: Lexicon, k: string)
    requires k in c.fullOrder && x.trim(k) == k && k != ""
    ensures k in Unique(x, c.fullOrder)
  {
    InUnique(x, c.fullOrder, k);
    var i :| 0 <= i < |c.fullOrder| && c.fullOrder[i] == k;
  }

}
