/** What collecting keeps of the downloaded nodes: no connection, tag, warning or source is lost, none is invented, and
    a node still stands for the subscription it came from. */
module Collection {
  import opened Nodes
  import opened NodeIdentity
  import DeletionByName

  /** The lists of the node are plain, and its own source is among its sources. */
  ghost predicate Tidy(r: Rules, n: Node) {
    && PlainStrings(r, n.tags) && PlainStrings(r, n.warnings) && PlainSource(r, n.source)
    && (forall s | s in n.sources :: PlainSource(r, s) && s != NO_SOURCE)
    && (n.source != NO_SOURCE ==> n.source in n.sources)
  }

  lemma NormalIsTidy(r: Rules, n: Node)
    requires IsNormal(r, n)
    ensures Tidy(r, n)
  {
    if n.source != NO_SOURCE {
      assert LeadsItsName(n.source, n.sources);
    }
  }

  // ---- What one node hands over to another ----

  datatype Item = Tag(tag: string) | Warning(text: string) | From(source: Source)

  ghost function Items(n: Node): set<Item> {
    (set t | t in n.tags :: Tag(t)) + (set w | w in n.warnings :: Warning(w)) + (set s | s in n.sources :: From(s))
  }

  /** What a copy hands over: its tags, its warnings and its own source. */
  ghost function Owned(n: Node): set<Item> {
    (set t | t in n.tags :: Tag(t)) + (set w | w in n.warnings :: Warning(w)) + if n.source == NO_SOURCE then {} else {From(n.source)}
  }

  /** The warning that a copy was skipped. */
  ghost function Skipped(r: Rules, n: Node): set<Item> {
    {Warning(r.sanitize(if n.source.name == "" then "duplicate skipped" else "duplicate skipped from source " + n.source.name))} - {Warning("")}
  }

  lemma PlainStay(r: Rules, ss: set<string>)
    requires PlainStrings(r, ss)
    ensures CleanStrings(r, ss) == ss
  {
    forall t | t in ss ensures t in CleanStrings(r, ss) {
      assert r.sanitize(t) == t;
    }
  }

  lemma CleanUnion(r: Rules, a: set<string>, b: set<string>)
    ensures CleanStrings(r, a + b) == CleanStrings(r, a) + CleanStrings(r, b)
  {
  }

  lemma CleanIsPlain(r: Rules, ss: set<string>)
    requires Sound(r)
    ensures PlainStrings(r, CleanStrings(r, ss))
  {
  }

  lemma AbsorbedSources(r: Rules, e: Node, d: Node)
    requires Tidy(r, e) && Tidy(r, d)
    ensures forall s :: s in Absorb(r, e, d).sources <==> s in e.sources || (s == d.source && s != NO_SOURCE)
  {
    var all := e.sources + [e.source, d.source];
    assert forall s | s in all :: NormalizeSource(r, s) == s;
    NormalizedStay(r, all);
    MergedElements(all);
  }

  lemma AbsorbedTexts(r: Rules, e: Node, d: Node)
    requires Tidy(r, e) && Tidy(r, d)
    ensures var m := Absorb(r, e, d);
            m.tags == e.tags + d.tags && m.warnings == e.warnings + d.warnings + CleanStrings(r, {DuplicateWarning(d.source)})
  {
    CleanUnion(r, e.tags, d.tags);
    CleanUnion(r, e.warnings + d.warnings, {DuplicateWarning(d.source)});
    CleanUnion(r, e.warnings, d.warnings);
    PlainStay(r, e.tags);
    PlainStay(r, d.tags);
    PlainStay(r, e.warnings);
    PlainStay(r, d.warnings);
  }

  lemma SkippedIs(r: Rules, d: Node)
    ensures (set w | w in CleanStrings(r, {DuplicateWarning(d.source)}) :: Warning(w)) == Skipped(r, d)
  {
    assert CleanStrings(r, {DuplicateWarning(d.source)}) == {r.sanitize(DuplicateWarning(d.source))} - {""};
  }

  lemma AbsorbIsTidy(r: Rules, e: Node, d: Node)
    requires Sound(r) && Tidy(r, e) && Tidy(r, d)
    ensures Tidy(r, Absorb(r, e, d))
  {
    AbsorbedSources(r, e, d);
    CleanIsPlain(r, e.tags + d.tags);
    CleanIsPlain(r, e.warnings + d.warnings + {DuplicateWarning(d.source)});
  }

  ghost function ItemSet(tags: set<string>, warnings: set<string>, sources: set<Source>): set<Item> {
    (set t | t in tags :: Tag(t)) + (set w | w in warnings :: Warning(w)) + (set s | s in sources :: From(s))
  }

  lemma ItemsAre(n: Node, sources: set<Source>)
    requires forall s :: s in sources <==> s in n.sources
    ensures Items(n) == ItemSet(n.tags, n.warnings, sources)
  {
  }

  lemma OwnedAre(n: Node)
    ensures Owned(n) == ItemSet(n.tags, n.warnings, {n.source} - {NO_SOURCE})
  {
  }

  lemma UnionOfItems(t1: set<string>, t2: set<string>, w1: set<string>, w2: set<string>, w3: set<string>, s1: set<Source>, s2: set<Source>)
    ensures ItemSet(t1 + t2, w1 + w2 + w3, s1 + s2) == ItemSet(t1, w1, s1) + ItemSet(t2, w2, s2) + set w | w in w3 :: Warning(w)
  {
  }

  /** An absorbed copy leaves all it owns, and a warning, and nothing else. */
  lemma AbsorbedItems(r: Rules, e: Node, d: Node)
    requires Tidy(r, e) && Tidy(r, d)
    ensures Items(Absorb(r, e, d)) == Items(e) + Owned(d) + Skipped(r, d)
  {
    var before := set s | s in e.sources;
    AbsorbedSources(r, e, d);
    AbsorbedTexts(r, e, d);
    SkippedIs(r, d);
    ItemsAre(e, before);
    OwnedAre(d);
    ItemsAre(Absorb(r, e, d), before + ({d.source} - {NO_SOURCE}));
    UnionOfItems(e.tags, d.tags, e.warnings, d.warnings, CleanStrings(r, {DuplicateWarning(d.source)}), before, {d.source} - {NO_SOURCE});
  }

  // ---- The whole collection ----

  ghost predicate AllTidy(r: Rules, nodes: seq<Node>) {
    forall i | 0 <= i < |nodes| :: Tidy(r, nodes[i])
  }

  /** Some collected node with the key of the node has all that it owns. */
  ghost predicate Kept(r: Rules, k: Keys, scope: Scope, out: seq<Node>, n: Node) {
    exists i :: 0 <= i < |out| && KeyOf(r, k, out[i], scope, 0) == KeyOf(r, k, n, scope, 0) && Owned(n) <= Items(out[i])
  }

  /** Some node with the key has the item, or left it as a skipped copy. */
  ghost predicate Given(r: Rules, k: Keys, scope: Scope, nodes: seq<Node>, key: DedupeKey, x: Item) {
    exists i :: 0 <= i < |nodes| && KeyOf(r, k, nodes[i], scope, 0) == key && x in Items(nodes[i]) + Owned(nodes[i]) + Skipped(r, nodes[i])
  }

  ghost predicate AllGiven(r: Rules, k: Keys, scope: Scope, nodes: seq<Node>, out: seq<Node>) {
    forall j, x | 0 <= j < |out| && x in Items(out[j]) :: Given(r, k, scope, nodes, KeyOf(r, k, out[j], scope, 0), x)
  }

  ghost predicate AllKept(r: Rules, k: Keys, scope: Scope, nodes: seq<Node>, out: seq<Node>) {
    forall i | 0 <= i < |nodes| :: Kept(r, k, scope, out, nodes[i])
  }

  lemma StillGiven(r: Rules, k: Keys, scope: Scope, nodes: seq<Node>, n: Node)
    ensures forall key, x :: Given(r, k, scope, nodes, key, x) ==> Given(r, k, scope, nodes + [n], key, x)
    ensures forall x | x in Items(n) + Owned(n) + Skipped(r, n) :: Given(r, k, scope, nodes + [n], KeyOf(r, k, n, scope, 0), x)
  {
    var all := nodes + [n];
    assert all[|nodes|] == n && forall i | 0 <= i < |nodes| :: all[i] == nodes[i];
  }

  lemma OwnedInItems(r: Rules, n: Node)
    requires Tidy(r, n)
    ensures Owned(n) <= Items(n)
  {
  }

  lemma StepKeeps(r: Rules, k: Keys, scope: Scope, nodes: seq<Node>, out: seq<Node>, node: Node, index: nat)
    requires Sound(r) && scope != Unscoped && AllTidy(r, out) && Tidy(r, node) && AllGiven(r, k, scope, nodes, out)
    ensures var next := DedupeStep(r, k, scope, out, node, index);
            && AllTidy(r, next) && Kept(r, k, scope, next, node) && AllGiven(r, k, scope, nodes + [node], next)
            && forall n | Kept(r, k, scope, out, n) :: Kept(r, k, scope, next, n)
  {
    var n := node.(id := CollectedId(r, node, scope, index));
    var i := Find(r, k, scope, out, KeyOf(r, k, n, scope, index));
    StillGiven(r, k, scope, nodes, node);
    if i < 0 {
      AppendKeeps(r, k, scope, nodes, out, node, n);
    } else {
      ReplaceKeeps(r, k, scope, nodes, out, node, n, i);
    }
  }

  /** The id is no item, and no part of a key. */
  ghost predicate SameBut(r: Rules, k: Keys, scope: Scope, node: Node, n: Node) {
    n == node.(id := n.id)
  }

  lemma SameItems(r: Rules, k: Keys, scope: Scope, node: Node, n: Node)
    requires SameBut(r, k, scope, node, n)
    ensures Items(n) == Items(node) && Owned(n) == Owned(node) && Skipped(r, n) == Skipped(r, node)
    ensures KeyOf(r, k, n, scope, 0) == KeyOf(r, k, node, scope, 0) && (Tidy(r, node) ==> Tidy(r, n))
  {
  }

  lemma AppendKeeps(r: Rules, k: Keys, scope: Scope, nodes: seq<Node>, out: seq<Node>, node: Node, n: Node)
    requires AllTidy(r, out) && Tidy(r, node) && AllGiven(r, k, scope, nodes, out) && SameBut(r, k, scope, node, n)
    ensures AllTidy(r, out + [n]) && Kept(r, k, scope, out + [n], node) && AllGiven(r, k, scope, nodes + [node], out + [n])
    ensures forall x | Kept(r, k, scope, out, x) :: Kept(r, k, scope, out + [n], x)
  {
    var next := out + [n];
    SameItems(r, k, scope, node, n);
    StillGiven(r, k, scope, nodes, node);
    OwnedInItems(r, node);
    assert next[|out|] == n && forall i | 0 <= i < |out| :: next[i] == out[i];
  }

  lemma ReplaceKeeps(r: Rules, k: Keys, scope: Scope, nodes: seq<Node>, out: seq<Node>, node: Node, n: Node, i: nat)
    requires Sound(r) && AllTidy(r, out) && Tidy(r, node) && AllGiven(r, k, scope, nodes, out) && SameBut(r, k, scope, node, n)
    requires i < |out| && KeyOf(r, k, out[i], scope, 0) == KeyOf(r, k, n, scope, 0)
    ensures var next := out[i := Absorb(r, out[i], n)];
            && AllTidy(r, next) && Kept(r, k, scope, next, node) && AllGiven(r, k, scope, nodes + [node], next)
            && forall x | Kept(r, k, scope, out, x) :: Kept(r, k, scope, next, x)
  {
    var m := Absorb(r, out[i], n);
    SameItems(r, k, scope, node, n);
    AbsorbIsTidy(r, out[i], n);
    AbsorbedItems(r, out[i], n);
    AbsorbKeepsKey(r, k, scope, out[i], n);
    ReplacedKeeps(r, k, scope, nodes, out, node, m, i);
  }

  lemma AbsorbKeepsKey(r: Rules, k: Keys, scope: Scope, e: Node, d: Node)
    ensures KeyOf(r, k, Absorb(r, e, d), scope, 0) == KeyOf(r, k, e, scope, 0)
  {
  }

  lemma ReplacedKeeps(r: Rules, k: Keys, scope: Scope, nodes: seq<Node>, out: seq<Node>, node: Node, m: Node, i: nat)
    requires i < |out| && AllTidy(r, out) && Tidy(r, m) && AllGiven(r, k, scope, nodes, out)
    requires KeyOf(r, k, out[i], scope, 0) == KeyOf(r, k, node, scope, 0) == KeyOf(r, k, m, scope, 0)
    requires Items(m) == Items(out[i]) + Owned(node) + Skipped(r, node)
    ensures var next := out[i := m];
            && AllTidy(r, next) && Kept(r, k, scope, next, node) && AllGiven(r, k, scope, nodes + [node], next)
            && forall x | Kept(r, k, scope, out, x) :: Kept(r, k, scope, next, x)
  {
    var next := out[i := m];
    StillGiven(r, k, scope, nodes, node);
    assert next[i] == m;
    forall x | Kept(r, k, scope, out, x) ensures Kept(r, k, scope, next, x) {
      ReplacedStays(r, k, scope, out, m, i, x);
    }
  }

  lemma ReplacedStays(r: Rules, k: Keys, scope: Scope, out: seq<Node>, m: Node, i: nat, x: Node)
    requires i < |out| && KeyOf(r, k, out[i], scope, 0) == KeyOf(r, k, m, scope, 0) && Items(out[i]) <= Items(m) && Kept(r, k, scope, out, x)
    ensures Kept(r, k, scope, out[i := m], x)
  {
    var next := out[i := m];
    var j :| 0 <= j < |out| && KeyOf(r, k, out[j], scope, 0) == KeyOf(r, k, x, scope, 0) && Owned(x) <= Items(out[j]);
    assert Items(out[j]) <= Items(next[j]) && KeyOf(r, k, next[j], scope, 0) == KeyOf(r, k, out[j], scope, 0);
  }

  lemma KeptOneMore(r: Rules, k: Keys, scope: Scope, nodes: seq<Node>, out: seq<Node>, next: seq<Node>, n: Node)
    requires AllKept(r, k, scope, nodes, out) && Kept(r, k, scope, next, n)
    requires forall x | Kept(r, k, scope, out, x) :: Kept(r, k, scope, next, x)
    ensures AllKept(r, k, scope, nodes + [n], next)
  {
    var all := nodes + [n];
    forall i | 0 <= i < |all| ensures Kept(r, k, scope, next, all[i]) {
      assert i < |nodes| ==> all[i] == nodes[i] && Kept(r, k, scope, out, nodes[i]);
    }
  }

  ghost predicate Faithful(r: Rules, k: Keys, scope: Scope, nodes: seq<Node>, out: seq<Node>) {
    AllTidy(r, out) && AllGiven(r, k, scope, nodes, out) && AllKept(r, k, scope, nodes, out)
  }

  lemma StepIsFaithful(r: Rules, k: Keys, scope: Scope, nodes: seq<Node>, out: seq<Node>, node: Node, index: nat)
    requires Sound(r) && scope != Unscoped && Faithful(r, k, scope, nodes, out) && Tidy(r, node)
    ensures Faithful(r, k, scope, nodes + [node], DedupeStep(r, k, scope, out, node, index))
  {
    StepKeeps(r, k, scope, nodes, out, node, index);
    KeptOneMore(r, k, scope, nodes, out, DedupeStep(r, k, scope, out, node, index), node);
  }

  lemma NothingCollected(r: Rules, k: Keys, scope: Scope)
    ensures Dedupe(r, k, scope, []) == [] && Faithful(r, k, scope, [], [])
  {
  }

  lemma DedupeLast(r: Rules, k: Keys, scope: Scope, init: seq<Node>, n: Node)
    ensures Dedupe(r, k, scope, init + [n]) == DedupeStep(r, k, scope, Dedupe(r, k, scope, init), n, |init|)
  {
    assert (init + [n])[..|init|] == init;
  }

  lemma {:induction false} DedupeKeeps(r: Rules, k: Keys, scope: Scope, nodes: seq<Node>)
    requires Sound(r) && scope != Unscoped && forall n | n in nodes :: Tidy(r, n)
    ensures Faithful(r, k, scope, nodes, Dedupe(r, k, scope, nodes))
  {
    if nodes == [] {
      NothingCollected(r, k, scope);
    } else {
      var init, n := nodes[..|nodes| - 1], nodes[|nodes| - 1];
      assert nodes == init + [n];
      DedupeKeeps(r, k, scope, init);
      StepIsFaithful(r, k, scope, init, Dedupe(r, k, scope, init), n, |init|);
      DedupeLast(r, k, scope, init, n);
    }
  }

  lemma CollectedAreTidy(r: Rules, raw: seq<Node>)
    requires Sound(r) && r.lower("") == ""
    ensures AllTidy(r, NormalizeAll(r, raw))
  {
    forall i | 0 <= i < |raw| ensures Tidy(r, NormalizeAll(r, raw)[i]) {
      NormalizedIsNormal(r, raw[i]);
      NormalIsTidy(r, NormalizeAll(r, raw)[i]);
    }
  }

  /** Outside scope none, each downloaded node has a collected copy that has its tags, its warnings and its source; and
      whatever a collected node has comes from a downloaded copy, or is the warning that one was skipped. */
  lemma NothingIsLost(r: Rules, k: Keys, scope: Scope, raw: seq<Node>)
    requires Sound(r) && r.lower("") == "" && scope != Unscoped
    ensures var nodes := NormalizeAll(r, raw);
            var out := Dedupe(r, k, scope, nodes);
            && (forall n | n in nodes :: exists m :: m in out && Copies(r, k, scope, n, m) && Owned(n) <= Items(m))
            && (forall m, x | m in out && x in Items(m) :: exists n :: n in nodes && Copies(r, k, scope, n, m) && x in Items(n) + Skipped(r, n))
  {
    CollectedAreTidy(r, raw);
    DedupeKeeps(r, k, scope, NormalizeAll(r, raw));
    KeptAreCopies(r, k, scope, NormalizeAll(r, raw), Dedupe(r, k, scope, NormalizeAll(r, raw)));
  }

  lemma KeptAreCopies(r: Rules, k: Keys, scope: Scope, nodes: seq<Node>, out: seq<Node>)
    requires AllTidy(r, nodes) && Faithful(r, k, scope, nodes, out)
    ensures forall n | n in nodes :: exists m :: m in out && Copies(r, k, scope, n, m) && Owned(n) <= Items(m)
    ensures forall m, x | m in out && x in Items(m) :: exists n :: n in nodes && Copies(r, k, scope, n, m) && x in Items(n) + Skipped(r, n)
  {
    forall n | n in nodes ensures exists m :: m in out && Copies(r, k, scope, n, m) && Owned(n) <= Items(m) {
      var i :| 0 <= i < |nodes| && nodes[i] == n;
      assert Kept(r, k, scope, out, nodes[i]);
      var j :| 0 <= j < |out| && KeyOf(r, k, out[j], scope, 0) == KeyOf(r, k, n, scope, 0) && Owned(n) <= Items(out[j]);
      CopiesIff(r, k, scope, n, out[j]);
      assert out[j] in out;
    }
    forall m, x | m in out && x in Items(m) ensures exists n :: n in nodes && Copies(r, k, scope, n, m) && x in Items(n) + Skipped(r, n) {
      var j :| 0 <= j < |out| && out[j] == m;
      assert Given(r, k, scope, nodes, KeyOf(r, k, out[j], scope, 0), x);
      var i := Giver(r, k, scope, nodes, KeyOf(r, k, m, scope, 0), x);
      OwnedInItems(r, nodes[i]);
      CopiesIff(r, k, scope, nodes[i], m);
      assert nodes[i] in nodes;
    }
  }

  lemma Giver(r: Rules, k: Keys, scope: Scope, nodes: seq<Node>, key: DedupeKey, x: Item) returns (i: nat)
    requires Given(r, k, scope, nodes, key, x)
    ensures i < |nodes| && KeyOf(r, k, nodes[i], scope, 0) == key && x in Items(nodes[i]) + Owned(nodes[i]) + Skipped(r, nodes[i])
  {
    i :| 0 <= i < |nodes| && KeyOf(r, k, nodes[i], scope, 0) == key && x in Items(nodes[i]) + Owned(nodes[i]) + Skipped(r, nodes[i]);
  }

  /** So the subscription, URL and protocol of a downloaded node are what some collected copy of it is called by, with the
      name of that copy. */
  lemma LabelIsCollected(r: Rules, k: Keys, scope: Scope, raw: seq<Node>, n: Node)
    requires Sound(r) && r.lower("") == "" && scope != Unscoped && n in raw && r.sanitize(n.source.kind) == "subscription"
    requires r.sanitize(n.source.id) != "" && r.sanitize(n.source.urlHash) != ""
    ensures exists m :: m in Dedupe(r, k, scope, NormalizeAll(r, raw)) && Copies(r, k, scope, Normalize(r, n), m)
              && (r.trim(m.name) != "" ==>
                    DeletionByName.Called(r, m, DeletionByName.Label(r.sanitize(n.source.id), r.sanitize(n.source.urlHash), r.lower(n.proto), m.name)))
  {
    var nodes, c := NormalizeAll(r, raw), Normalize(r, n);
    var i :| 0 <= i < |raw| && raw[i] == n;
    assert nodes[i] == c && c in nodes;
    NothingIsLost(r, k, scope, raw);
    var m :| m in Dedupe(r, k, scope, nodes) && Copies(r, k, scope, c, m) && Owned(c) <= Items(m);
    CopyIsCalled(r, c, m);
  }

  lemma CopyIsCalled(r: Rules, c: Node, m: Node)
    requires Owned(c) <= Items(m) && m.proto == c.proto && c.source.kind == "subscription" && c.source.id != "" && c.source.urlHash != ""
    ensures r.trim(m.name) != "" ==> DeletionByName.Called(r, m, DeletionByName.Label(c.source.id, c.source.urlHash, c.proto, m.name))
  {
    assert From(c.source) in Owned(c);
    assert c.source in m.sources;
  }
}
