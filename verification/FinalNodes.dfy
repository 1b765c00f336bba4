/** `BuildFinalNodes`: the staged filters, the per-record state, the final deduplication and the audit. */
module FinalNodes {
  import opened Common
  import opened Text
  import opened Nodes
  import NodeDeletion
  import NodeIdentity
  import ProxyNames

  datatype Reason = InfoNode | NotIncluded | ExcludedByKeyword | InvalidNode | DisabledNode | DeletedNode | Duplicate

  /** An audit entry; `position` tells which candidate it is about. */
  datatype Entry = Entry(id: NodeId, name: string, source: Source, reason: Reason, position: nat)

  datatype Override = Override(name: string, tags: set<string>, region: string, server: string, port: int,
                               tls: Option<(string, string, string)>, auth: Option<string>, transport: Option<string>,
                               obfs: Option<Option<string>>)

  /** Keyword matching, protocol checks and naming are parameters. */
  datatype Settings = Settings(
    scope: Scope, showInfo: bool, filterIllegal: bool, sortNodes: bool,
    info: Node -> bool,
    included: string -> bool,
    excluded: string -> bool,
    renderable: Node -> bool,
    region: (set<string>, string) -> set<string>,
    display: Node -> string,
    suffix: (string, nat) -> string)

  // ---- One filtering stage ----

  function EntryOf(r: Rules, n: Node, why: Reason): Entry {
    Entry(n.id, r.trim(n.name), n.source, why, n.position)
  }

  function Kept(nodes: seq<Node>, test: Node -> Option<Reason>): seq<Node> {
    if nodes == [] then []
    else Kept(nodes[..|nodes| - 1], test) + if test(nodes[|nodes| - 1]).None? then [nodes[|nodes| - 1]] else []
  }

  function Rejected(r: Rules, nodes: seq<Node>, test: Node -> Option<Reason>): seq<Entry> {
    if nodes == [] then []
    else
      var n := nodes[|nodes| - 1];
      Rejected(r, nodes[..|nodes| - 1], test) + if test(n).None? then [] else [EntryOf(r, n, test(n).value)]
  }

  method Sift(r: Rules, nodes: seq<Node>, test: Node -> Option<Reason>, audit: seq<Entry>) returns (kept: seq<Node>, audit': seq<Entry>)
    ensures kept == Kept(nodes, test) && audit' == audit + Rejected(r, nodes, test)
  {
    kept, audit' := [], audit;
    for i := 0 to |nodes|
      invariant kept == Kept(nodes[..i], test) && audit' == audit + Rejected(r, nodes[..i], test)
    {
      assert nodes[..i + 1][..i] == nodes[..i];
      match test(nodes[i])
      case Some(why) => audit' := audit' + [EntryOf(r, nodes[i], why)];
      case None => kept := kept + [nodes[i]];
    }
    assert nodes[..|nodes|] == nodes;
  }

  // ---- The stages ----

  /** The filters before overrides. */
  function FilterOf(cfg: Settings): Node -> Option<Reason> {
    (n: Node) =>
      if cfg.info(n) && !cfg.showInfo then Some(InfoNode)
      else if !cfg.included(n.name) then Some(NotIncluded)
      else if cfg.excluded(n.name) then Some(ExcludedByKeyword)
      else if cfg.filterIllegal && !cfg.renderable(n) then Some(InvalidNode)
      else None
  }

  /** Overrides may have made a node invalid. */
  function RecheckOf(cfg: Settings): Node -> Option<Reason> {
    (n: Node) => if cfg.filterIllegal && !cfg.renderable(n) then Some(InvalidNode) else None
  }

  function StateOf(disabled: set<NodeId>, gone: set<NodeId>): Node -> Option<Reason> {
    (n: Node) => if n.id in disabled then Some(DisabledNode) else if n.id in gone then Some(DeletedNode) else None
  }

  /** One node under `applyNodeOverrides`: changed, normalised again, its id restored. */
  function Overridden(r: Rules, cfg: Settings, overrides: map<NodeId, Override>, n: Node): Node {
    if n.id !in overrides then n
    else
      var o := overrides[n.id];
      var tags := if o.tags != {} then o.tags else n.tags;
      var m := n.(
        name := if r.trim(o.name) != "" then o.name else n.name,
        tags := if r.trim(o.region) != "" then cfg.region(tags, o.region) else tags,
        server := if r.trim(o.server) != "" then o.server else n.server,
        port := if o.port > 0 then o.port else n.port,
        sni := if o.tls.Some? then o.tls.value.0 else n.sni,
        fingerprint := if o.tls.Some? then o.tls.value.1 else n.fingerprint,
        clientFingerprint := if o.tls.Some? then o.tls.value.2 else n.clientFingerprint,
        auth := if o.auth.Some? then o.auth.value else n.auth,
        transport := if o.transport.Some? then o.transport.value else n.transport,
        obfs := if o.obfs.Some? then o.obfs.value else n.obfs);
      Normalize(r, m).(id := n.id)
  }

  function OverriddenAll(r: Rules, cfg: Settings, overrides: map<NodeId, Override>, nodes: seq<Node>): seq<Node> {
    seq(|nodes|, i requires 0 <= i < |nodes| => Overridden(r, cfg, overrides, nodes[i]))
  }

  method ApplyNodeOverrides(r: Rules, cfg: Settings, overrides: map<NodeId, Override>, nodes: seq<Node>) returns (out: seq<Node>)
    ensures out == OverriddenAll(r, cfg, overrides, nodes)
  {
    if overrides == map[] {
      return nodes;
    }
    out := [];
    for i := 0 to |nodes|
      invariant |out| == i && forall j | 0 <= j < i :: out[j] == Overridden(r, cfg, overrides, nodes[j])
    {
      out := out + [Overridden(r, cfg, overrides, nodes[i])];
    }
  }

  /** An override changes what it gives, and of a normal node nothing else but the region tags of a new name. */
  lemma OverrideChanges(r: Rules, cfg: Settings, overrides: map<NodeId, Override>, n: Node)
    requires Sound(r) && r.lower("") == "" && IsNormal(r, n) && n.id in overrides
    ensures var m, o := Overridden(r, cfg, overrides, n), overrides[n.id];
            && m.id == n.id && m.position == n.position && m.proto == n.proto
            && m.source == n.source && m.sources == n.sources && m.warnings == n.warnings
            && (r.trim(n.name) != "" ==> m.name == if r.trim(o.name) != "" then o.name else n.name)
            && m.server == (if r.trim(o.server) != "" then r.lower(o.server) else n.server)
            && m.port == (if o.port > 0 then o.port else n.port)
            && (o.auth.None? ==> m.auth == n.auth) && (o.auth.Some? ==> m.auth == o.auth.value)
            && (o.transport.None? ==> m.transport == n.transport) && (o.transport.Some? ==> m.transport == o.transport.value)
            && (o.tls.None? ==> m.sni == n.sni && m.fingerprint == n.fingerprint && m.clientFingerprint == n.clientFingerprint)
            && (o.tls.Some? ==> (m.sni, m.fingerprint, m.clientFingerprint)
                                  == (r.sanitize(o.tls.value.0), r.sanitize(o.tls.value.1), r.sanitize(o.tls.value.2)))
            && (o.obfs.None? ==> m.obfs == n.obfs)
  {
    NormalSourcesStay(r, n.source, n.sources);
    CleanIff(r, n.warnings, {});
    assert CleanStrings(r, n.warnings) + {} == CleanStrings(r, n.warnings);
    ObfsIff(r, n);
  }

  lemma OverrideTags(r: Rules, cfg: Settings, overrides: map<NodeId, Override>, n: Node, t: string)
    requires Sound(r) && IsNormal(r, n) && n.id in overrides
    ensures var m, o := Overridden(r, cfg, overrides, n), overrides[n.id];
            && (o.tags == {} && r.trim(o.region) == "" ==> (t in m.tags <==> t in n.tags || t in r.regions(m.name)))
            && (o.tags != {} && r.trim(o.region) == "" && PlainStrings(r, o.tags) ==> (t in m.tags <==> t in o.tags || t in r.regions(m.name)))
  {
    CleanIff(r, n.tags, {});
    CleanIff(r, overrides[n.id].tags, {});
    assert CleanStrings(r, n.tags) + {} == CleanStrings(r, n.tags);
    assert CleanStrings(r, overrides[n.id].tags) + {} == CleanStrings(r, overrides[n.id].tags);
  }

  // ---- The final deduplication ----

  function View(r: Rules, n: Node): seq<Source> {
    MergeSources(NormalizeEach(r, n.sources + [n.source]))
  }

  function TrimAll(r: Rules, ss: set<string>): set<string> {
    (set s | s in ss :: r.trim(s)) - {""}
  }

  function Merge(r: Rules, e: Node, d: Node): Node {
    e.(tags := TrimAll(r, e.tags + d.tags), warnings := TrimAll(r, e.warnings + d.warnings),
       sources := MergeSources(View(r, e) + View(r, d)))
  }

  function Key(r: Rules, scope: Scope, n: Node): NodeId {
    StableId(r, n, scope, 0)
  }

  function Find(r: Rules, scope: Scope, out: seq<Node>, key: NodeId): (i: int)
    ensures -1 <= i < |out|
    ensures i >= 0 ==> Key(r, scope, out[i]) == key
    ensures i < 0 ==> forall j | 0 <= j < |out| :: Key(r, scope, out[j]) != key
  {
    if out == [] then -1
    else if Key(r, scope, out[|out| - 1]) == key then |out| - 1
    else Find(r, scope, out[..|out| - 1], key)
  }

  datatype Merged = Merged(out: seq<Node>, log: seq<Entry>)

  function MergeStep(r: Rules, scope: Scope, m: Merged, n: Node): Merged {
    var i := Find(r, scope, m.out, Key(r, scope, n));
    if i < 0 then m.(out := m.out + [n])
    else Merged(m.out[i := Merge(r, m.out[i], n)], m.log + [EntryOf(r, n, Duplicate)])
  }

  function MergeAll(r: Rules, scope: Scope, nodes: seq<Node>): Merged {
    if nodes == [] then Merged([], []) else MergeStep(r, scope, MergeAll(r, scope, nodes[..|nodes| - 1]), nodes[|nodes| - 1])
  }

  function Deduped(r: Rules, scope: Scope, nodes: seq<Node>): Merged {
    if scope == Unscoped then Merged(nodes, []) else MergeAll(r, scope, nodes)
  }

  function KeysOf(r: Rules, scope: Scope, out: seq<Node>): seq<NodeId> {
    seq(|out|, i requires 0 <= i < |out| => Key(r, scope, out[i]))
  }

  /** The index table holds exactly the keys in the list, each with a place where it is. */
  ghost predicate Indexes(seen: map<NodeId, nat>, keys: seq<NodeId>) {
    && (forall key | key in seen :: seen[key] < |keys| && keys[seen[key]] == key)
    && (forall i | 0 <= i < |keys| :: keys[i] in seen)
  }

  /** `dedupeFinalNodes`. */
  method DedupeFinalNodes(r: Rules, scope: Scope, nodes: seq<Node>) returns (m: Merged)
    ensures m == Deduped(r, scope, nodes)
  {
    if scope == Unscoped {
      return Merged(nodes, []);
    }
    var seen: map<NodeId, nat> := map[];
    m := Merged([], []);
    for i := 0 to |nodes|
      invariant m == MergeAll(r, scope, nodes[..i])
      invariant Indexes(seen, KeysOf(r, scope, m.out)) && Distinct(KeysOf(r, scope, m.out))
    {
      assert nodes[..i + 1][..i] == nodes[..i];
      var node := nodes[i];
      var key := Key(r, scope, node);
      MergeStepIs(r, scope, m, node, seen);
      if key in seen {
        var existing := Merge(r, m.out[seen[key]], node);
        m := Merged(m.out[seen[key] := existing], m.log + [EntryOf(r, node, Duplicate)]);
        continue;
      }
      seen := seen[key := |m.out|];
      m := m.(out := m.out + [node]);
    }
    assert nodes[..|nodes|] == nodes;
  }

  lemma MergeStepIs(r: Rules, scope: Scope, m: Merged, node: Node, seen: map<NodeId, nat>)
    requires Indexes(seen, KeysOf(r, scope, m.out)) && Distinct(KeysOf(r, scope, m.out))
    ensures var key := Key(r, scope, node);
            if key in seen then
              seen[key] < |m.out|
              && MergeStep(r, scope, m, node) == Merged(m.out[seen[key] := Merge(r, m.out[seen[key]], node)], m.log + [EntryOf(r, node, Duplicate)])
              && KeysOf(r, scope, MergeStep(r, scope, m, node).out) == KeysOf(r, scope, m.out)
            else
              MergeStep(r, scope, m, node) == m.(out := m.out + [node])
              && KeysOf(r, scope, m.out + [node]) == KeysOf(r, scope, m.out) + [key]
  {
    var key := Key(r, scope, node);
    FoundAt(r, scope, m.out, seen, key);
    if key in seen {
      KeysReplaced(r, scope, m.out, seen[key], node);
    } else {
      KeysAppended(r, scope, m.out, node);
    }
  }

  lemma KeysReplaced(r: Rules, scope: Scope, out: seq<Node>, i: nat, node: Node)
    requires i < |out|
    ensures KeysOf(r, scope, out[i := Merge(r, out[i], node)]) == KeysOf(r, scope, out)
  {
  }

  lemma KeysAppended(r: Rules, scope: Scope, out: seq<Node>, node: Node)
    ensures KeysOf(r, scope, out + [node]) == KeysOf(r, scope, out) + [Key(r, scope, node)]
  {
  }

  lemma FoundAt(r: Rules, scope: Scope, out: seq<Node>, seen: map<NodeId, nat>, key: NodeId)
    requires Indexes(seen, KeysOf(r, scope, out)) && Distinct(KeysOf(r, scope, out))
    ensures key in seen ==> Find(r, scope, out, key) == seen[key]
    ensures key !in seen ==> Find(r, scope, out, key) < 0
  {
    var keys, i := KeysOf(r, scope, out), Find(r, scope, out, key);
    assert forall j | 0 <= j < |out| :: keys[j] == Key(r, scope, out[j]);
    assert i >= 0 ==> keys[i] == key;
  }

  // ---- Presentation ----

  function InsertByDisplay(r: Rules, n: Node, nodes: seq<Node>): seq<Node> {
    if nodes == [] || !Less(r.lower(nodes[0].name), r.lower(n.name)) then [n] + nodes
    else [nodes[0]] + InsertByDisplay(r, n, nodes[1..])
  }

  /** `sort.SliceStable` by lower-cased name. */
  function SortByDisplay(r: Rules, nodes: seq<Node>): seq<Node> {
    if nodes == [] then [] else InsertByDisplay(r, nodes[0], SortByDisplay(r, nodes[1..]))
  }

  function Decorated(r: Rules, cfg: Settings, nodes: seq<Node>): seq<Node> {
    var named := seq(|nodes|, i requires 0 <= i < |nodes| => nodes[i].(name := cfg.display(nodes[i])));
    if cfg.sortNodes then SortByDisplay(r, named) else named
  }

  /** Blank names are replaced by protocol and position before numbering. */
  function BaseNames(r: Rules, nodes: seq<Node>): seq<string> {
    seq(|nodes|, i requires 0 <= i < |nodes| =>
      if r.trim(nodes[i].name) == "" then nodes[i].proto + "-" + ProxyNames.Digits(i + 1) else nodes[i].name)
  }

  function Renamed(nodes: seq<Node>, names: seq<string>): seq<Node>
    requires |names| == |nodes|
  {
    seq(|nodes|, i requires 0 <= i < |nodes| => nodes[i].(name := names[i]))
  }

  function Presented(r: Rules, cfg: Settings, nodes: seq<Node>): seq<Node> {
    var d := Decorated(r, cfg, nodes);
    Renamed(d, ProxyNames.Unique(cfg.suffix, BaseNames(r, d)))
  }

  // ---- The pipeline ----

  function Candidates(r: Rules, cfg: Settings, listed: seq<Node>): seq<Node> {
    seq(|listed|, i requires 0 <= i < |listed| => NodeIdentity.Candidate(r, cfg.scope, listed[i], i).(position := i))
  }

  function Gone(r: Rules, s: NodeDeletion.State, candidates: seq<Node>): set<NodeId> {
    set p | p in NodeDeletion.Resolved(s, candidates, NodeDeletion.OwnersOf(r, candidates)) :: p.0
  }

  datatype Output = Output(nodes: seq<Node>, audit: seq<Entry>, rawCount: nat, finalCount: nat, excludedCount: nat)

  function Survivors(r: Rules, cfg: Settings, s: NodeDeletion.State, overrides: map<NodeId, Override>, candidates: seq<Node>): seq<Node> {
    Kept(Kept(OverriddenAll(r, cfg, overrides, Kept(candidates, FilterOf(cfg))), RecheckOf(cfg)), StateOf(s.disabled, Gone(r, s, candidates)))
  }

  function StageAudit(r: Rules, cfg: Settings, s: NodeDeletion.State, overrides: map<NodeId, Override>, candidates: seq<Node>): seq<Entry> {
    var filtered := OverriddenAll(r, cfg, overrides, Kept(candidates, FilterOf(cfg)));
    Rejected(r, candidates, FilterOf(cfg)) + Rejected(r, filtered, RecheckOf(cfg))
      + Rejected(r, Kept(filtered, RecheckOf(cfg)), StateOf(s.disabled, Gone(r, s, candidates)))
  }

  /** What the pipeline computes, stage by stage. */
  function Built(r: Rules, cfg: Settings, s: NodeDeletion.State, overrides: map<NodeId, Override>, listed: seq<Node>): Output {
    var candidates := Candidates(r, cfg, listed);
    var final := Deduped(r, cfg.scope, Survivors(r, cfg, s, overrides, candidates));
    var nodes := Presented(r, cfg, final.out);
    var audit := StageAudit(r, cfg, s, overrides, candidates) + final.log;
    Output(nodes, audit, |candidates|, |nodes|, |audit|)
  }

  method AssignIds(r: Rules, cfg: Settings, listed: seq<Node>) returns (candidates: seq<Node>)
    ensures candidates == Candidates(r, cfg, listed)
  {
    candidates := [];
    for index := 0 to |listed|
      invariant |candidates| == index
      invariant forall j | 0 <= j < index :: candidates[j] == NodeIdentity.Candidate(r, cfg.scope, listed[j], j).(position := j)
    {
      var n := Normalize(r, listed[index]);
      if !NodeIdentity.IsCustom(r, n) {
        n := n.(id := StableId(r, n, cfg.scope, index));
      }
      candidates := candidates + [n.(position := index)];
    }
  }

  method ApplyFilters(r: Rules, cfg: Settings, s: NodeDeletion.State, overrides: map<NodeId, Override>, candidates: seq<Node>)
    returns (nodes: seq<Node>, audit: seq<Entry>)
    ensures nodes == Survivors(r, cfg, s, overrides, candidates) && audit == StageAudit(r, cfg, s, overrides, candidates)
  {
    var deleted := NodeDeletion.ResolveDeletedNodes(r, s, candidates);
    nodes, audit := FilterAndOverride(r, cfg, overrides, candidates);
    nodes, audit := Sift(r, nodes, StateOf(s.disabled, set p | p in deleted :: p.0), audit);
  }

  method FilterAndOverride(r: Rules, cfg: Settings, overrides: map<NodeId, Override>, candidates: seq<Node>)
    returns (nodes: seq<Node>, audit: seq<Entry>)
    ensures var filtered := OverriddenAll(r, cfg, overrides, Kept(candidates, FilterOf(cfg)));
            && nodes == Kept(filtered, RecheckOf(cfg))
            && audit == Rejected(r, candidates, FilterOf(cfg)) + Rejected(r, filtered, RecheckOf(cfg))
  {
    nodes, audit := Sift(r, candidates, FilterOf(cfg), []);
    assert audit == Rejected(r, candidates, FilterOf(cfg));
    nodes := ApplyNodeOverrides(r, cfg, overrides, nodes);
    if cfg.filterIllegal {
      nodes, audit := Sift(r, nodes, RecheckOf(cfg), audit);
    } else {
      NothingRejected(r, nodes, RecheckOf(cfg));
    }
  }

  lemma {:induction false} NothingRejected(r: Rules, nodes: seq<Node>, test: Node -> Option<Reason>)
    requires forall n | n in nodes :: test(n).None?
    ensures Kept(nodes, test) == nodes && Rejected(r, nodes, test) == []
  {
    if nodes != [] {
      NothingRejected(r, nodes[..|nodes| - 1], test);
      assert nodes == nodes[..|nodes| - 1] + [nodes[|nodes| - 1]];
    }
  }

  /** `BuildFinalNodes`, given the collected nodes followed by the stored custom nodes. */
  method BuildFinalNodes(r: Rules, cfg: Settings, s: NodeDeletion.State, overrides: map<NodeId, Override>, listed: seq<Node>)
    returns (o: Output)
    ensures o == Built(r, cfg, s, overrides, listed)
  {
    var candidates := AssignIds(r, cfg, listed);
    var nodes, audit := ApplyFilters(r, cfg, s, overrides, candidates);
    var merged := DedupeFinalNodes(r, cfg.scope, nodes);
    audit := audit + merged.log;
    nodes := Decorated(r, cfg, merged.out);
    var names := ProxyNames.EnsureUniqueProxyNames(cfg.suffix, BaseNames(r, nodes));
    nodes := Renamed(nodes, names);
    o := Output(nodes, audit, |candidates|, |nodes|, |audit|);
  }

  // ---- Accounting ----

  function Positions(nodes: seq<Node>): seq<nat> {
    seq(|nodes|, i requires 0 <= i < |nodes| => nodes[i].position)
  }

  function Logged(audit: seq<Entry>): seq<nat> {
    seq(|audit|, i requires 0 <= i < |audit| => audit[i].position)
  }

  lemma PositionsConcat(a: seq<Node>, b: seq<Node>)
    ensures Positions(a + b) == Positions(a) + Positions(b)
  {
  }

  lemma LoggedConcat(a: seq<Entry>, b: seq<Entry>)
    ensures Logged(a + b) == Logged(a) + Logged(b)
  {
  }

  /** The multiset of candidates that two lists account for together. */
  function Accounted(nodes: seq<Node>, audit: seq<Entry>): multiset<nat> {
    multiset(Positions(nodes)) + multiset(Logged(audit))
  }

  lemma AccountedNode(nodes: seq<Node>, audit: seq<Entry>, n: Node)
    ensures Accounted(nodes + [n], audit) == Accounted(nodes, audit) + multiset{n.position}
  {
    PositionsConcat(nodes, [n]);
    assert Positions([n]) == [n.position];
  }

  lemma AccountedEntry(nodes: seq<Node>, audit: seq<Entry>, e: Entry)
    ensures Accounted(nodes, audit + [e]) == Accounted(nodes, audit) + multiset{e.position}
  {
    LoggedConcat(audit, [e]);
    assert Logged([e]) == [e.position];
  }

  lemma StageOne(r: Rules, nodes: seq<Node>, init: seq<Node>, n: Node, test: Node -> Option<Reason>)
    requires nodes != [] && init == nodes[..|nodes| - 1] && n == nodes[|nodes| - 1]
    ensures Accounted(Kept(nodes, test), Rejected(r, nodes, test)) == Accounted(Kept(init, test), Rejected(r, init, test)) + multiset{n.position}
    ensures |Kept(nodes, test)| + |Rejected(r, nodes, test)| == |Kept(init, test)| + |Rejected(r, init, test)| + 1
  {
    var kept, out := Kept(init, test), Rejected(r, init, test);
    if test(n).None? {
      AccountedNode(kept, out, n);
      assert out + [] == out;
    } else {
      AccountedEntry(kept, out, EntryOf(r, n, test(n).value));
      assert kept + [] == kept;
    }
  }

  /** A stage keeps or logs every node, once. */
  lemma {:induction false} StageConserves(r: Rules, nodes: seq<Node>, test: Node -> Option<Reason>)
    ensures Accounted(Kept(nodes, test), Rejected(r, nodes, test)) == Accounted(nodes, [])
    ensures |Kept(nodes, test)| + |Rejected(r, nodes, test)| == |nodes|
  {
    if nodes != [] {
      var init, n := nodes[..|nodes| - 1], nodes[|nodes| - 1];
      StageConserves(r, init, test);
      assert nodes == init + [n];
      AccountedNode(init, [], n);
      StageOne(r, nodes, init, n, test);
    }
  }

  lemma {:induction false} MergeConserves(r: Rules, scope: Scope, nodes: seq<Node>)
    ensures var m := MergeAll(r, scope, nodes);
            Accounted(m.out, m.log) == Accounted(nodes, []) && |m.out| + |m.log| == |nodes|
  {
    if nodes != [] {
      var init, n := nodes[..|nodes| - 1], nodes[|nodes| - 1];
      MergeAllLast(r, scope, nodes, init, n);
      MergeConserves(r, scope, init);
      MergeStepConserves(r, scope, MergeAll(r, scope, init), n);
    }
  }

  lemma MergeAllLast(r: Rules, scope: Scope, nodes: seq<Node>, init: seq<Node>, n: Node)
    requires nodes != [] && init == nodes[..|nodes| - 1] && n == nodes[|nodes| - 1]
    ensures MergeAll(r, scope, nodes) == MergeStep(r, scope, MergeAll(r, scope, init), n)
    ensures Accounted(nodes, []) == Accounted(init, []) + multiset{n.position}
  {
    AccountedNode(init, [], n);
    assert nodes == init + [n];
  }

  lemma MergeStepConserves(r: Rules, scope: Scope, m: Merged, n: Node)
    ensures var next := MergeStep(r, scope, m, n);
            Accounted(next.out, next.log) == Accounted(m.out, m.log) + multiset{n.position} && |next.out| + |next.log| == |m.out| + |m.log| + 1
  {
    var i := Find(r, scope, m.out, Key(r, scope, n));
    if i < 0 {
      AccountedNode(m.out, m.log, n);
    } else {
      var out := m.out[i := Merge(r, m.out[i], n)];
      assert Positions(out) == Positions(m.out);
      AccountedEntry(out, m.log, EntryOf(r, n, Duplicate));
    }
  }
}
