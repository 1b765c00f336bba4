/** Collection and identity: `DedupeNodesByScope` and the two independent computations of node ids, one made
    when nodes are collected for the editor and one made again by `BuildFinalNodes`. */
module NodeIdentity {
  import opened Nodes

  /** The coarser views of credentials and transport that deduplication looks at. */
  datatype Keys = Keys(auth: string -> string, transport: string -> string)

  datatype DedupeKey = DedupeKey(proto: string, server: string, port: int, auth: string, transport: string,
                                 sni: string, source: string, index: nat)

  /** `dedupeKey`. */
  function KeyOf(r: Rules, k: Keys, n: Node, scope: Scope, index: nat): DedupeKey {
    DedupeKey(n.proto, r.lower(n.server), n.port, k.auth(n.auth), k.transport(n.transport), n.sni,
              if scope == Global then "" else r.lower(n.source.id), if scope == Unscoped then index else 0)
  }

  predicate IsCustom(r: Rules, n: Node) {
    r.lower(n.source.kind) == "custom"
  }

  function CollectedId(r: Rules, n: Node, scope: Scope, index: nat): NodeId {
    if IsCustom(r, n) then CustomId(StableId(r, n, scope, index)) else StableId(r, n, scope, index)
  }

  function DuplicateWarning(s: Source): string {
    if s.name != "" then "duplicate skipped from source " + s.name else "duplicate skipped"
  }

  /** A duplicate leaves its tags, warnings and source behind. */
  function Absorb(r: Rules, e: Node, d: Node): Node {
    e.(tags := CleanStrings(r, e.tags + d.tags),
       warnings := CleanStrings(r, e.warnings + d.warnings + {DuplicateWarning(d.source)}),
       sources := MergeSources(NormalizeEach(r, e.sources + [e.source, d.source])))
  }

  /** What merging never changes. */
  function Core(n: Node): Node {
    n.(tags := {}, warnings := {}, sources := [])
  }

  /** The index of the node with a key, or -1. */
  function Find(r: Rules, k: Keys, scope: Scope, out: seq<Node>, key: DedupeKey): (i: int)
    ensures -1 <= i < |out|
    ensures i >= 0 ==> KeyOf(r, k, out[i], scope, 0) == key
    ensures i < 0 ==> forall j | 0 <= j < |out| :: KeyOf(r, k, out[j], scope, 0) != key
  {
    if out == [] then -1
    else if KeyOf(r, k, out[|out| - 1], scope, 0) == key then |out| - 1
    else Find(r, k, scope, out[..|out| - 1], key)
  }

  function DedupeStep(r: Rules, k: Keys, scope: Scope, out: seq<Node>, node: Node, index: nat): seq<Node> {
    var n := node.(id := CollectedId(r, node, scope, index));
    var i := if scope == Unscoped then -1 else Find(r, k, scope, out, KeyOf(r, k, n, scope, index));
    if i < 0 then out + [n] else out[i := Absorb(r, out[i], n)]
  }

  function Dedupe(r: Rules, k: Keys, scope: Scope, nodes: seq<Node>): seq<Node> {
    if nodes == [] then []
    else DedupeStep(r, k, scope, Dedupe(r, k, scope, nodes[..|nodes| - 1]), nodes[|nodes| - 1], |nodes| - 1)
  }

  ghost predicate DistinctKeys(r: Rules, k: Keys, scope: Scope, out: seq<Node>) {
    forall i, j | 0 <= i < j < |out| :: KeyOf(r, k, out[i], scope, 0) != KeyOf(r, k, out[j], scope, 0)
  }

  /** Outside scope none, the index of nodes by key. */
  ghost predicate Indexes(r: Rules, k: Keys, scope: Scope, seen: map<DedupeKey, nat>, out: seq<Node>) {
    && (forall key | key in seen :: seen[key] < |out| && KeyOf(r, k, out[seen[key]], scope, 0) == key)
    && (forall i | 0 <= i < |out| :: KeyOf(r, k, out[i], scope, 0) in seen)
  }

  /** `DedupeNodesByScope`. In scope none a repeated key is appended all the same. */
  method DedupeNodesByScope(r: Rules, k: Keys, scope: Scope, nodes: seq<Node>) returns (out: seq<Node>)
    ensures out == Dedupe(r, k, scope, nodes)
  {
    var seen: map<DedupeKey, nat> := map[];
    out := [];
    for index := 0 to |nodes|
      invariant out == Dedupe(r, k, scope, nodes[..index])
      invariant scope != Unscoped ==> Indexes(r, k, scope, seen, out) && DistinctKeys(r, k, scope, out)
    {
      assert nodes[..index + 1][..index] == nodes[..index];
      var node := nodes[index].(id := CollectedId(r, nodes[index], scope, index));
      var key := KeyOf(r, k, node, scope, index);
      if key in seen && scope != Unscoped {
        var existing := out[seen[key]];
        DistinctAt(r, k, scope, out, key, seen[key]);
        KeepsIndex(r, k, scope, seen, out, seen[key], Absorb(r, existing, node));
        out := out[seen[key] := Absorb(r, existing, node)];
        continue;
      }
      if scope != Unscoped {
        AddsIndex(r, k, scope, seen, out, node);
      }
      seen := seen[key := |out|];
      out := out + [node];
    }
    assert nodes[..|nodes|] == nodes;
  }

  lemma DistinctAt(r: Rules, k: Keys, scope: Scope, out: seq<Node>, key: DedupeKey, i: nat)
    requires DistinctKeys(r, k, scope, out) && i < |out| && KeyOf(r, k, out[i], scope, 0) == key
    ensures Find(r, k, scope, out, key) == i
  {
  }

  lemma KeepsIndex(r: Rules, k: Keys, scope: Scope, seen: map<DedupeKey, nat>, out: seq<Node>, i: nat, n: Node)
    requires Indexes(r, k, scope, seen, out) && DistinctKeys(r, k, scope, out) && i < |out|
    requires Core(n) == Core(out[i])
    ensures Indexes(r, k, scope, seen, out[i := n]) && DistinctKeys(r, k, scope, out[i := n])
  {
  }

  lemma AddsIndex(r: Rules, k: Keys, scope: Scope, seen: map<DedupeKey, nat>, out: seq<Node>, n: Node)
    requires Indexes(r, k, scope, seen, out) && DistinctKeys(r, k, scope, out)
    requires KeyOf(r, k, n, scope, 0) !in seen
    ensures Indexes(r, k, scope, seen[KeyOf(r, k, n, scope, 0) := |out|], out + [n]) && DistinctKeys(r, k, scope, out + [n])
    ensures Find(r, k, scope, out, KeyOf(r, k, n, scope, 0)) < 0
  {
  }

  // ---- What deduplication gives ----

  /** The fields an id is computed from are already normalised. */
  ghost predicate Clean(r: Rules, n: Node) {
    && r.lower(n.proto) == n.proto && r.lower(n.server) == n.server && n.port >= 0
    && r.sanitize(n.sni) == n.sni && r.sanitize(n.fingerprint) == n.fingerprint && r.sanitize(n.clientFingerprint) == n.clientFingerprint
    && NormalizeSource(r, n.source) == n.source
  }

  /** Normalising again does not move an id. */
  lemma CleanKeepsId(r: Rules, n: Node, scope: Scope, index: nat)
    requires Clean(r, n)
    ensures StableId(r, Normalize(r, n), scope, index) == StableId(r, n, scope, index)
    ensures IsCustom(r, Normalize(r, n)) == IsCustom(r, n)
    ensures n.id != Blank ==> Normalize(r, n).id == n.id
  {
  }

  function NormalizeAll(r: Rules, nodes: seq<Node>): seq<Node> {
    seq(|nodes|, i requires 0 <= i < |nodes| => Normalize(r, nodes[i]))
  }

  ghost predicate Identified(r: Rules, scope: Scope, n: Node, i: nat) {
    Clean(r, n) && n.id == CollectedId(r, n, scope, i)
  }

  /** Every collected node carries the id that its own fields give. */
  ghost predicate SelfIdentified(r: Rules, scope: Scope, out: seq<Node>) {
    forall i | 0 <= i < |out| :: Identified(r, scope, out[i], i)
  }

  /** In scope none nothing is dropped, so positions, and with them ids, stay. */
  lemma {:induction false} DedupeIdentifies(r: Rules, k: Keys, scope: Scope, nodes: seq<Node>)
    requires forall n | n in nodes :: Clean(r, n)
    ensures SelfIdentified(r, scope, Dedupe(r, k, scope, nodes))
    ensures scope == Unscoped ==> |Dedupe(r, k, scope, nodes)| == |nodes|
  {
    if nodes != [] {
      var last := |nodes| - 1;
      DedupeIdentifies(r, k, scope, nodes[..last]);
      assert Clean(r, nodes[last]);
      StepIdentifies(r, k, scope, Dedupe(r, k, scope, nodes[..last]), nodes[last], last);
    }
  }

  lemma StepIdentifies(r: Rules, k: Keys, scope: Scope, out: seq<Node>, node: Node, index: nat)
    requires SelfIdentified(r, scope, out) && Clean(r, node) && (scope == Unscoped ==> |out| == index)
    ensures SelfIdentified(r, scope, DedupeStep(r, k, scope, out, node, index))
    ensures scope == Unscoped ==> |DedupeStep(r, k, scope, out, node, index)| == index + 1
  {
    var n := node.(id := CollectedId(r, node, scope, index));
    var i := if scope == Unscoped then -1 else Find(r, k, scope, out, KeyOf(r, k, n, scope, index));
    if i >= 0 {
    }
  }

  /** Outside scope none, the collected keys are the keys of the input, each once. */
  lemma {:induction false} DedupeKeysAreExact(r: Rules, k: Keys, scope: Scope, nodes: seq<Node>, key: DedupeKey)
    requires scope != Unscoped
    ensures DistinctKeys(r, k, scope, Dedupe(r, k, scope, nodes))
    ensures (exists n :: n in nodes && KeyOf(r, k, n, scope, 0) == key)
            <==> exists m :: m in Dedupe(r, k, scope, nodes) && KeyOf(r, k, m, scope, 0) == key
  {
    if nodes != [] {
      var last := |nodes| - 1;
      DedupeKeysAreExact(r, k, scope, nodes[..last], key);
      var before := Dedupe(r, k, scope, nodes[..last]);
      StepKeys(r, k, scope, before, nodes[last], last, key);
      assert nodes == nodes[..last] + [nodes[last]];
    }
  }

  lemma StepKeys(r: Rules, k: Keys, scope: Scope, out: seq<Node>, node: Node, index: nat, key: DedupeKey)
    requires scope != Unscoped && DistinctKeys(r, k, scope, out)
    ensures DistinctKeys(r, k, scope, DedupeStep(r, k, scope, out, node, index))
    ensures (exists m :: m in DedupeStep(r, k, scope, out, node, index) && KeyOf(r, k, m, scope, 0) == key)
            <==> (exists m :: m in out && KeyOf(r, k, m, scope, 0) == key) || KeyOf(r, k, node, scope, 0) == key
  {
    var n := node.(id := CollectedId(r, node, scope, index));
    var i := Find(r, k, scope, out, KeyOf(r, k, n, scope, 0));
    var next := DedupeStep(r, k, scope, out, node, index);
    if i >= 0 {
      ReplaceKeys(r, k, scope, out, i, next[i], key);
    } else {
      assert next == out + [n];
      assert next[|out|] == n;
      if m :| m in out && KeyOf(r, k, m, scope, 0) == key {
        assert m in next;
      }
    }
  }

  lemma ReplaceKeys(r: Rules, k: Keys, scope: Scope, out: seq<Node>, i: nat, n: Node, key: DedupeKey)
    requires i < |out| && KeyOf(r, k, n, scope, 0) == KeyOf(r, k, out[i], scope, 0)
    ensures (exists m :: m in out[i := n] && KeyOf(r, k, m, scope, 0) == key) <==> (exists m :: m in out && KeyOf(r, k, m, scope, 0) == key)
  {
    var next := out[i := n];
    if m :| m in out && KeyOf(r, k, m, scope, 0) == key {
      var j :| 0 <= j < |out| && out[j] == m;
      assert next[j] in next && KeyOf(r, k, next[j], scope, 0) == key;
    }
    if m :| m in next && KeyOf(r, k, m, scope, 0) == key {
      var j :| 0 <= j < |next| && next[j] == m;
      assert out[j] in out && KeyOf(r, k, out[j], scope, 0) == key;
    }
  }

  /** What deduplication takes for the same node: credentials and transport are seen through the coarser views. */
  ghost predicate Copies(r: Rules, k: Keys, scope: Scope, a: Node, b: Node) {
    && a.proto == b.proto && r.lower(a.server) == r.lower(b.server) && a.port == b.port
    && k.auth(a.auth) == k.auth(b.auth) && k.transport(a.transport) == k.transport(b.transport) && a.sni == b.sni
    && (scope != Global ==> r.lower(a.source.id) == r.lower(b.source.id))
  }

  lemma CopiesIff(r: Rules, k: Keys, scope: Scope, a: Node, b: Node)
    ensures Copies(r, k, scope, a, b) <==> KeyOf(r, k, a, scope, 0) == KeyOf(r, k, b, scope, 0)
  {
  }

  /** Outside scope none, each node has a collected copy, each collected node is a copy of some node, and no two
      collected nodes are copies. */
  lemma CollectedWithoutCopies(r: Rules, k: Keys, scope: Scope, nodes: seq<Node>)
    requires scope != Unscoped
    ensures var out := Dedupe(r, k, scope, nodes);
            && (forall n | n in nodes :: exists m :: m in out && Copies(r, k, scope, n, m))
            && (forall m | m in out :: exists n :: n in nodes && Copies(r, k, scope, n, m))
            && (forall i, j | 0 <= i < j < |out| :: !Copies(r, k, scope, out[i], out[j]))
  {
    var out := Dedupe(r, k, scope, nodes);
    forall n | n in nodes ensures exists m :: m in out && Copies(r, k, scope, n, m) {
      DedupeKeysAreExact(r, k, scope, nodes, KeyOf(r, k, n, scope, 0));
      var m :| m in out && KeyOf(r, k, m, scope, 0) == KeyOf(r, k, n, scope, 0);
      CopiesIff(r, k, scope, n, m);
    }
    forall m | m in out ensures exists n :: n in nodes && Copies(r, k, scope, n, m) {
      DedupeKeysAreExact(r, k, scope, nodes, KeyOf(r, k, m, scope, 0));
      var n :| n in nodes && KeyOf(r, k, n, scope, 0) == KeyOf(r, k, m, scope, 0);
      CopiesIff(r, k, scope, n, m);
    }
    forall i, j | 0 <= i < j < |out| ensures !Copies(r, k, scope, out[i], out[j]) {
      DedupeKeysAreExact(r, k, scope, nodes, KeyOf(r, k, out[i], scope, 0));
      CopiesIff(r, k, scope, out[i], out[j]);
    }
  }

  // ---- The editor's ids and the generator's ids ----

  /** What `NormalizeNodeState` makes of a stored custom node. */
  function NormalizeCustom(r: Rules, n: Node, customName: string): Node {
    var s := n.source;
    var filled := n.(source := Source(if r.trim(s.id) == "" then "custom" else s.id, if r.trim(s.name) == "" then customName else s.name,
                                      s.emoji, if r.trim(s.kind) == "" then "custom" else s.kind, s.urlHash));
    var m := Normalize(r, filled);
    if m.id.CustomId? then m else m.(id := CustomId(m.id))
  }

  /** The nodes the editor lists: the collection, then the stored custom nodes. */
  function Listed(r: Rules, k: Keys, scope: Scope, raw: seq<Node>, custom: seq<Node>): seq<Node> {
    Dedupe(r, k, scope, NormalizeAll(r, raw)) + custom
  }

  /** The candidate `BuildFinalNodes` makes of the node at an index. */
  function Candidate(r: Rules, scope: Scope, n: Node, index: nat): Node {
    var m := Normalize(r, n);
    if IsCustom(r, m) then m else m.(id := StableId(r, m, scope, index))
  }

  lemma NormalizedAreClean(r: Rules, raw: seq<Node>)
    requires Sound(r)
    ensures forall n | n in NormalizeAll(r, raw) :: Clean(r, n)
  {
  }

  lemma IdentifiedAgrees(r: Rules, scope: Scope, n: Node, i: nat)
    requires Identified(r, scope, n, i)
    ensures Candidate(r, scope, n, i).id == n.id
  {
    CleanKeepsId(r, n, scope, i);
  }

  /** Collected nodes get the same id twice, whatever the scope and whatever was merged into them. */
  lemma CollectedIdsAgree(r: Rules, k: Keys, scope: Scope, raw: seq<Node>, custom: seq<Node>, i: nat)
    requires Sound(r) && i < |Dedupe(r, k, scope, NormalizeAll(r, raw))|
    ensures Candidate(r, scope, Listed(r, k, scope, raw, custom)[i], i).id == Listed(r, k, scope, raw, custom)[i].id
  {
    var out := Dedupe(r, k, scope, NormalizeAll(r, raw));
    NormalizedAreClean(r, raw);
    DedupeIdentifies(r, k, scope, NormalizeAll(r, raw));
    IdentifiedAgrees(r, scope, out[i], i);
  }

  /** The generator gives the node at an index the id that the editor has for it. */
  ghost predicate Agrees(r: Rules, scope: Scope, n: Node, i: nat) {
    Candidate(r, scope, n, i).id == n.id
  }

  /** Editor and generator agree on every id exactly when every stored custom node has the custom kind; a custom
      node with another kind keeps its stored id in the editor and gets a connection id from the generator. */
  lemma IdsAgreeIff(r: Rules, k: Keys, scope: Scope, raw: seq<Node>, custom: seq<Node>)
    requires Sound(r) && forall n | n in custom :: n.id.CustomId? && Clean(r, n)
    ensures var listed := Listed(r, k, scope, raw, custom);
            (forall i | 0 <= i < |listed| :: Agrees(r, scope, listed[i], i))
            <==> forall n | n in custom :: IsCustom(r, n)
  {
    var listed, count := Listed(r, k, scope, raw, custom), |Dedupe(r, k, scope, NormalizeAll(r, raw))|;
    forall i | 0 <= i < count ensures Agrees(r, scope, listed[i], i) {
      CollectedIdsAgree(r, k, scope, raw, custom, i);
    }
    forall i | count <= i < |listed| ensures Agrees(r, scope, listed[i], i) <==> IsCustom(r, listed[i]) {
      assert listed[i] == custom[i - count] && listed[i] in custom;
    }
    CustomPart(r, scope, listed, count, custom);
  }

  lemma CustomPart(r: Rules, scope: Scope, listed: seq<Node>, count: nat, custom: seq<Node>)
    requires count <= |listed| && listed[count..] == custom
    requires forall i | 0 <= i < count :: Agrees(r, scope, listed[i], i)
    requires forall i | count <= i < |listed| :: Agrees(r, scope, listed[i], i) <==> IsCustom(r, listed[i])
    ensures (forall i | 0 <= i < |listed| :: Agrees(r, scope, listed[i], i)) <==> forall n | n in custom :: IsCustom(r, n)
  {
  }

  // ---- The custom nodes the program stores ----

  /** A stored kind that makes a custom node: none at all, or "custom" however it is written. */
  predicate CustomKind(r: Rules, n: Node) {
    r.trim(n.source.kind) == "" || r.lower(r.sanitize(n.source.kind)) == "custom"
  }

  /** Stored custom nodes come out of state normalisation in the form that the agreement needs, and are custom
      exactly if they were stored without a kind or as custom. */
  lemma CustomNodesAreReady(r: Rules, n: Node, customName: string)
    requires Sound(r)
    ensures var m := NormalizeCustom(r, n, customName);
            m.id.CustomId? && Clean(r, m) && (IsCustom(r, m) <==> CustomKind(r, n)) && (CustomKind(r, n) ==> CustomKind(r, m))
  {
    var m := NormalizeCustom(r, n, customName);
    assert m.source.kind == r.sanitize(if r.trim(n.source.kind) == "" then "custom" else n.source.kind);
  }

  /** What `handleCustomNodes` appends to the state. */
  function Added(r: Rules, n: Node): Node {
    var m := Normalize(r, n.(source := Source("", "manual", "", "custom", "")));
    if m.id.CustomId? then m else m.(id := CustomId(m.id))
  }

  lemma AddedIsCustom(r: Rules, n: Node)
    requires Sound(r)
    ensures CustomKind(r, Added(r, n)) && Added(r, n).id.CustomId?
  {
  }

  function IdsOf(nodes: seq<Node>): set<NodeId> {
    set n | n in nodes :: n.id
  }

  function AddNew(out: seq<Node>, n: Node): seq<Node> {
    if n.id in IdsOf(out) then out else out + [n]
  }

  lemma AddNewIds(out: seq<Node>, n: Node)
    ensures IdsOf(AddNew(out, n)) == IdsOf(out) + {n.id}
  {
  }

  /** The custom nodes of a loaded state: each normalised, the first of every id. */
  function LoadedCustom(r: Rules, customName: string, stored: seq<Node>): seq<Node> {
    if stored == [] then []
    else AddNew(LoadedCustom(r, customName, stored[..|stored| - 1]), NormalizeCustom(r, stored[|stored| - 1], customName))
  }

  /** The loop over custom nodes in `NormalizeNodeState`. */
  method LoadCustomNodes(r: Rules, customName: string, stored: seq<Node>) returns (out: seq<Node>)
    ensures out == LoadedCustom(r, customName, stored)
  {
    out := [];
    var seenCustom: set<NodeId> := {};
    for i := 0 to |stored|
      invariant out == LoadedCustom(r, customName, stored[..i]) && seenCustom == IdsOf(out)
    {
      assert stored[..i + 1][..i] == stored[..i];
      var m := NormalizeCustom(r, stored[i], customName);
      AddNewIds(out, m);
      assert LoadedCustom(r, customName, stored[..i + 1]) == AddNew(out, m);
      if m.id in seenCustom {
        continue;
      }
      seenCustom := seenCustom + {m.id};
      out := out + [m];
    }
    assert stored[..|stored|] == stored;
  }

  lemma {:induction false} LoadedComeFrom(r: Rules, customName: string, stored: seq<Node>, m: Node)
    requires m in LoadedCustom(r, customName, stored)
    ensures exists n :: n in stored && m == NormalizeCustom(r, n, customName)
  {
    var init, last := stored[..|stored| - 1], stored[|stored| - 1];
    if m in LoadedCustom(r, customName, init) {
      LoadedComeFrom(r, customName, init, m);
    } else {
      assert last in stored && m == NormalizeCustom(r, last, customName);
    }
  }

  /** The id with the custom prefix, which is not given twice. */
  ghost predicate Prefixed(id: NodeId, prefixed: NodeId) {
    if id.CustomId? then prefixed == id else prefixed == CustomId(id)
  }

  /** A stored custom node keeps its id, with the prefix; its source keeps what it has and is filled up. */
  lemma CustomKeeps(r: Rules, n: Node, customName: string)
    requires n.id != Blank
    ensures var m := NormalizeCustom(r, n, customName);
            && Prefixed(n.id, m.id) && m.proto == r.lower(n.proto) && m.server == r.lower(n.server) && m.auth == n.auth && m.transport == n.transport
            && (r.trim(n.name) != "" ==> m.name == n.name) && (n.port >= 0 ==> m.port == n.port)
            && (r.trim(n.source.id) != "" ==> m.source.id == r.sanitize(n.source.id)) && (r.trim(n.source.id) == "" ==> m.source.id == r.sanitize("custom"))
            && (r.trim(n.source.name) != "" ==> m.source.name == r.sanitize(n.source.name))
            && (r.trim(n.source.name) == "" ==> m.source.name == r.sanitize(customName))
            && m.source.emoji == r.trim(n.source.emoji) && m.source.urlHash == r.sanitize(n.source.urlHash)
  {
  }

  /** An added node has the id of its connection, or the one it came with, under the prefix. */
  lemma AddedKeeps(r: Rules, n: Node)
    ensures n.id != Blank ==> Prefixed(n.id, Added(r, n).id)
    ensures n.id == Blank ==> Added(r, n).id == CustomId(StableId(r, Added(r, n), Global, 0))
  {
  }

  /** Loading loses no id. */
  lemma {:induction false} LoadedIds(r: Rules, customName: string, stored: seq<Node>, id: NodeId)
    ensures id in IdsOf(LoadedCustom(r, customName, stored)) <==> HasId(r, customName, stored, id)
  {
    if stored != [] {
      var init, last := stored[..|stored| - 1], stored[|stored| - 1];
      LoadedIds(r, customName, init, id);
      AddNewIds(LoadedCustom(r, customName, init), NormalizeCustom(r, last, customName));
      assert stored == init + [last];
      HasIdLast(r, customName, init, last, id);
    }
  }

  /** And it gives exactly the first normalised node of each. */
  lemma {:induction false} LoadedIff(r: Rules, customName: string, stored: seq<Node>, m: Node)
    ensures m in LoadedCustom(r, customName, stored) <==> FirstOfId(r, customName, stored, m)
  {
    if stored != [] {
      var init, last := stored[..|stored| - 1], stored[|stored| - 1];
      LoadedIff(r, customName, init, m);
      LoadedIds(r, customName, init, NormalizeCustom(r, last, customName).id);
      assert stored == init + [last];
      FirstLast(r, customName, init, last, m);
    }
  }

  lemma HasIdLast(r: Rules, customName: string, init: seq<Node>, last: Node, id: NodeId)
    ensures HasId(r, customName, init + [last], id) <==> HasId(r, customName, init, id) || NormalizeCustom(r, last, customName).id == id
  {
    var all := init + [last];
    assert all[|init|] == last && forall i | 0 <= i < |init| :: all[i] == init[i];
  }

  lemma FirstLast(r: Rules, customName: string, init: seq<Node>, last: Node, m: Node)
    ensures FirstOfId(r, customName, init + [last], m)
            <==> FirstOfId(r, customName, init, m) || (m == NormalizeCustom(r, last, customName) && !HasId(r, customName, init, m.id))
  {
    var all := init + [last];
    assert all[|init|] == last && forall i | 0 <= i < |init| :: all[i] == init[i];
  }

  ghost predicate HasId(r: Rules, customName: string, stored: seq<Node>, id: NodeId) {
    exists i :: 0 <= i < |stored| && NormalizeCustom(r, stored[i], customName).id == id
  }

  /** The first node of its id among the stored ones, as normalised. */
  ghost predicate FirstOfId(r: Rules, customName: string, stored: seq<Node>, m: Node) {
    exists i :: 0 <= i < |stored| && m == NormalizeCustom(r, stored[i], customName) && forall j | 0 <= j < i :: NormalizeCustom(r, stored[j], customName).id != m.id
  }

  ghost predicate AllCustomKind(r: Rules, nodes: seq<Node>) {
    forall n | n in nodes :: CustomKind(r, n)
  }

  /** Loading keeps custom kinds, so a state that was only ever changed by adding, loading and deleting custom
      nodes has no other kind among them. */
  lemma LoadedAreCustom(r: Rules, customName: string, stored: seq<Node>)
    requires Sound(r) && AllCustomKind(r, stored)
    ensures var custom := LoadedCustom(r, customName, stored);
            AllCustomKind(r, custom) && forall m | m in custom :: m.id.CustomId? && Clean(r, m) && IsCustom(r, m)
  {
    forall m | m in LoadedCustom(r, customName, stored)
      ensures CustomKind(r, m) && m.id.CustomId? && Clean(r, m) && IsCustom(r, m)
    {
      LoadedComeFrom(r, customName, stored, m);
      var n :| n in stored && m == NormalizeCustom(r, n, customName);
      CustomNodesAreReady(r, n, customName);
    }
  }

  /** With custom nodes as the program stores them, editor and generator agree on every id, in every scope. */
  lemma StoredIdsAgree(r: Rules, k: Keys, scope: Scope, raw: seq<Node>, customName: string, stored: seq<Node>, i: nat)
    requires Sound(r) && AllCustomKind(r, stored)
    requires i < |Listed(r, k, scope, raw, LoadedCustom(r, customName, stored))|
    ensures Agrees(r, scope, Listed(r, k, scope, raw, LoadedCustom(r, customName, stored))[i], i)
  {
    LoadedAreCustom(r, customName, stored);
    IdsAgreeIff(r, k, scope, raw, LoadedCustom(r, customName, stored));
  }

  /** A custom node stored with another kind: the editor keeps its stored id, the generator computes another. */
  lemma OtherKindGetsTwoIds(r: Rules, k: Keys, scope: Scope, n: Node, customName: string)
    requires Sound(r) && n.source.kind == "subscription" && r.trim("subscription") == "subscription"
    requires r.sanitize("subscription") == "subscription" && r.lower("subscription") == "subscription"
    ensures var m, listed := NormalizeCustom(r, n, customName), Listed(r, k, scope, [], LoadedCustom(r, customName, [n]));
            listed == [m] && m.id.CustomId? && !Candidate(r, scope, listed[0], 0).id.CustomId? && !Agrees(r, scope, listed[0], 0)
  {
    assert LoadedCustom(r, customName, [n][..0]) == [];
  }
}
