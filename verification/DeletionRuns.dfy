/** Deletion records over whole runs of one workspace: refreshes that rotate ids, further deletions,
    re-enabling, configuration changes and the pruning of stale records. Every event loads, changes and
    saves the state under the workspace lock, so a run is a sequence of events. */
module DeletionRuns {
  import opened Nodes
  import opened NodeDeletion

  // ---- Pruning ----

  function Ids(nodes: seq<Node>): set<NodeId> {
    (set n | n in nodes :: n.id) - {Blank}
  }

  /** A record stays if its node is current, or some subscription it was seen in is still configured; a record
      that was never seen in any subscription stays unless the caller knows the collection was complete. */
  predicate Keeps(s: State, active: set<string>, current: set<NodeId>, pruneUnknown: bool, id: NodeId) {
    id in current || if SourcesOf(s, id) == {} then !pruneUnknown else SourcesOf(s, id) * active != {}
  }

  function Prune(s: State, active: set<string>, current: set<NodeId>, pruneUnknown: bool): State {
    var n := Normalized(s);
    Normalized(n.(deleted := set id | id in n.deleted && Keeps(n, active, current, pruneUnknown, id)))
  }

  /** `pruneDeletedNodeState`. */
  method PruneDeleted(s: State, active: set<string>, current: set<NodeId>, pruneUnknown: bool) returns (s': State, pruned: set<NodeId>)
    ensures s' == Prune(s, active, current, pruneUnknown)
    ensures pruned == Deleted(s) - s'.deleted
  {
    var n := Normalized(s);
    var kept: set<NodeId> := {};
    pruned := {};
    var todo := n.deleted;
    while todo != {}
      invariant todo <= n.deleted
      invariant kept == set id | id in n.deleted - todo && Keeps(n, active, current, pruneUnknown, id)
      invariant pruned == n.deleted - todo - kept
      decreases todo
    {
      var id :| id in todo;
      todo := todo - {id};
      if id in current {
        kept := kept + {id};
        continue;
      }
      var sources := SourcesOf(n, id);
      if sources == {} && !pruneUnknown {
        kept := kept + {id};
        continue;
      }
      if sources != {} && sources * active != {} {
        kept := kept + {id};
        continue;
      }
      pruned := pruned + {id};
    }
    assert n.deleted - todo == n.deleted;
    s' := Normalized(n.(deleted := kept));
  }

  /** `rememberDeletedNodeSourcesFromAudit`: evidence from the last audit, for deleted ids. */
  function FromAudit(s: State, audit: set<(NodeId, string)>): State {
    s.(sources := s.sources + set p | p in audit && p.0 in Deleted(s))
  }

  function FromNodes(r: Rules, s: State, nodes: seq<Node>): State {
    s.(sources := s.sources + EvidenceOf(r, Deleted(s), nodes))
  }

  /** `hasDeletedNodeWithoutSources`. */
  predicate HasUnknown(s: State) {
    exists id :: id in s.deleted && SourcesOf(s, id) == {}
  }

  /** `pruneDeletedNodeStateForConfigChange`. */
  function ConfigChange(r: Rules, s: State, before: set<string>, after: set<string>, audit: set<(NodeId, string)>,
                        oldNodes: seq<Node>, newNodes: seq<Node>, complete: bool): State {
    var n := Normalized(s);
    if before - after == {} || n.deleted == {} then n
    else
      var a := FromAudit(n, audit);
      if HasUnknown(a) then Prune(FromNodes(r, a, oldNodes), after, Ids(newNodes), complete)
      else Prune(a, after, {}, false)
  }

  /** `pruneDeletedNodeStateForCurrentConfig`. */
  function PruneCurrent(r: Rules, s: State, active: set<string>, audit: set<(NodeId, string)>, nodes: seq<Node>, complete: bool): State {
    Prune(FromAudit(FromNodes(r, Normalized(s), nodes), audit), active, Ids(nodes), complete)
  }

  method RememberFromAudit(s: State, audit: set<(NodeId, string)>) returns (s': State)
    ensures s' == FromAudit(s, audit)
  {
    s' := s;
    var todo := audit;
    while todo != {}
      invariant todo <= audit
      invariant s' == FromAudit(s, audit - todo)
      decreases todo
    {
      var p :| p in todo;
      assert audit - (todo - {p}) == (audit - todo) + {p};
      todo := todo - {p};
      if p.0 in Deleted(s) {
        s' := s'.(sources := s'.sources + {p});
      }
    }
    assert audit - todo == audit;
  }

  method PruneForConfigChange(r: Rules, s: State, before: set<string>, after: set<string>, audit: set<(NodeId, string)>,
                              oldNodes: seq<Node>, newNodes: seq<Node>, complete: bool) returns (s': State, pruned: set<NodeId>)
    ensures s' == ConfigChange(r, s, before, after, audit, oldNodes, newNodes, complete)
    ensures pruned == Deleted(s) - s'.deleted
  {
    s' := Normalized(s);
    if before - after == {} || s'.deleted == {} {
      return s', {};
    }
    s' := RememberFromAudit(s', audit);
    if HasUnknown(s') {
      s' := RememberDeletedNodeSources(r, s', oldNodes);
      s', pruned := PruneDeleted(s', after, Ids(newNodes), complete);
    } else {
      s', pruned := PruneDeleted(s', after, {}, false);
    }
  }

  /** `pruneRestoredDraftDeletedNodeState`. */
  function PruneRestored(r: Rules, s: State, active: set<string>, audit: set<(NodeId, string)>, nodes: seq<Node>, complete: bool): State {
    var n := Prune(FromAudit(Normalized(s), audit), active, {}, false);
    if HasUnknown(n) then PruneCurrent(r, n, active, audit, nodes, complete) else n
  }

  // ---- Editing ----

  /** The requested ids and the records they resolve to. */
  function Expanded(r: Rules, s: State, nodes: seq<Node>, ids: set<NodeId>): set<NodeId> {
    if s.signatures == {} then ids
    else ids + set p | p in Resolved(s, nodes, OwnersOf(r, nodes)) && p.0 in ids :: p.1
  }

  function Enable(r: Rules, s: State, nodes: seq<Node>, ids: set<NodeId>): State {
    var all := Expanded(r, s, nodes, ids);
    Normalized(s.(disabled := s.disabled - all, deleted := s.deleted - all))
  }

  function Disable(s: State, ids: set<NodeId>): State {
    Normalized(s.(disabled := s.disabled + ids))
  }

  method ExpandIds(resolved: set<(NodeId, NodeId)>, requested: seq<NodeId>) returns (ids: set<NodeId>)
    ensures ids == (set id | id in requested) + (set p | p in resolved && p.0 in requested :: p.1)
  {
    ids := set id | id in requested;
    for i := 0 to |requested|
      invariant ids == (set id | id in requested) + (set p | p in resolved && p.0 in requested[..i] :: p.1)
    {
      assert requested[..i + 1] == requested[..i] + [requested[i]];
      ids := ids + set p | p in resolved && p.0 == requested[i] :: p.1;
    }
    assert requested[..|requested|] == requested;
  }

  /** `handleToggleNodes`. */
  method HandleToggle(r: Rules, s: State, nodes: seq<Node>, requested: seq<NodeId>, enabled: bool) returns (s': State)
    ensures s' == if enabled then Enable(r, s, nodes, set id | id in requested) else Disable(s, set id | id in requested)
  {
    ghost var wanted := set id | id in requested;
    var ids := set id | id in requested;
    if enabled {
      if s.signatures != {} {
        var resolved := ResolveDeletedNodes(r, s, nodes);
        ids := ExpandIds(resolved, requested);
        assert (set p | p in resolved && p.0 in requested :: p.1) == (set p | p in resolved && p.0 in wanted :: p.1);
      }
      assert ids == Expanded(r, s, nodes, wanted);
      s' := Normalized(s.(disabled := s.disabled - ids, deleted := s.deleted - ids));
    } else {
      s' := Normalized(s.(disabled := s.disabled + ids));
    }
  }

  function Without(nodes: seq<Node>, ids: set<NodeId>): seq<Node> {
    if nodes == [] then []
    else Without(nodes[..|nodes| - 1], ids) + if nodes[|nodes| - 1].id in ids then [] else [nodes[|nodes| - 1]]
  }

  /** The request is refused unless every id is collected or already deleted. */
  predicate DeleteAllowed(s: State, nodes: seq<Node>, ids: set<NodeId>) {
    ids != {} && ids <= Ids(nodes) + s.deleted
  }

  function Delete(r: Rules, s: State, nodes: seq<Node>, ids: set<NodeId>): State {
    if !DeleteAllowed(s, nodes, ids) then s
    else
      var gone := ids * Ids(s.custom);
      var d := s.(custom := Without(s.custom, ids), deleted := (s.deleted - gone) + (ids - gone), disabled := s.disabled - ids,
                  sources := set p | p in s.sources && p.0 !in gone);
      var e := FromNodes(r, d, nodes);
      Normalized(e.(signatures := e.signatures + Claims(OwnersOf(r, nodes), Deleted(e))))
  }

  /** `handleDeleteNodes`, given the nodes collected before the deletion. */
  method HandleDelete(r: Rules, s: State, nodes: seq<Node>, ids: set<NodeId>) returns (s': State, ok: bool)
    ensures s' == Delete(r, s, nodes, ids)
    ensures ok <==> DeleteAllowed(s, nodes, ids)
  {
    if ids == {} {
      return s, false;
    }
    if !(ids <= Ids(nodes) + s.deleted) {
      return s, false;
    }
    var custom: seq<Node> := [];
    for i := 0 to |s.custom|
      invariant custom == Without(s.custom[..i], ids)
    {
      assert s.custom[..i + 1][..i] == s.custom[..i];
      if s.custom[i].id !in ids {
        custom := custom + [s.custom[i]];
      }
    }
    assert s.custom[..|s.custom|] == s.custom;
    var customIds := Ids(s.custom);
    var subscription, gone: set<NodeId>, sources := {}, {}, s.sources;
    var todo := ids;
    while todo != {}
      invariant todo <= ids
      invariant subscription == (ids - todo) - customIds && gone == (ids - todo) * customIds
      invariant sources == set p | p in s.sources && p.0 !in gone
      decreases todo
    {
      var id :| id in todo;
      todo := todo - {id};
      if id in customIds {
        sources := set p | p in sources && p.0 != id;
        gone := gone + {id};
      } else {
        subscription := subscription + {id};
      }
    }
    assert gone == ids * customIds && subscription == ids - gone;
    s' := s.(custom := custom, deleted := (s.deleted - gone) + subscription, disabled := s.disabled - ids, sources := sources);
    s' := RememberDeletedNodeSources(r, s', nodes);
    s' := RememberDeletedNodeSignatures(r, s', nodes);
    s' := Normalized(s');
    ok := true;
  }

  // ---- Runs ----

  /** `nodes` are the subscription nodes collected now; custom nodes live in the state. */
  datatype World = World(state: State, nodes: seq<Node>, active: set<string>)

  function Originals(w: World): seq<Node> {
    w.nodes + w.state.custom
  }

  datatype Event =
    | Refresh(nodes: seq<Node>)                     // the subscriptions were downloaded again
    | Configure(active: set<string>, nodes: seq<Node>, audit: set<(NodeId, string)>, complete: bool)
    | ListDeleted(audit: set<(NodeId, string)>, complete: bool)
    | RestoreDraft(audit: set<(NodeId, string)>, complete: bool)
    | DeleteNodes(ids: set<NodeId>)
    | EnableNodes(ids: set<NodeId>)
    | DisableNodes(ids: set<NodeId>)
    | EditCustom(custom: seq<Node>)
    | ClearOverrides

  function After(r: Rules, w: World, e: Event): World {
    match e
    case Refresh(nodes) => w.(nodes := nodes)
    case Configure(active, nodes, audit, complete) =>
      World(ConfigChange(r, w.state, w.active, active, audit, Originals(w), nodes + w.state.custom, complete), nodes, active)
    case ListDeleted(audit, complete) => w.(state := PruneCurrent(r, w.state, w.active, audit, Originals(w), complete))
    case RestoreDraft(audit, complete) => w.(state := PruneRestored(r, w.state, w.active, audit, Originals(w), complete))
    case DeleteNodes(ids) => w.(state := Delete(r, w.state, Originals(w), ids))
    case EnableNodes(ids) => w.(state := Enable(r, w.state, Originals(w), ids))
    case DisableNodes(ids) => w.(state := Disable(w.state, ids))
    case EditCustom(custom) => w.(state := Normalized(w.state.(custom := custom)))
    case ClearOverrides => w.(state := Normalized(w.state.(deleted := {}, disabled := {})))
  }

  function AfterAll(r: Rules, w: World, run: seq<Event>): World
    decreases |run|
  {
    if run == [] then w else AfterAll(r, After(r, w, run[0]), run[1..])
  }

  /** Stored custom nodes always carry the custom prefix. */
  ghost predicate CustomOnly(nodes: seq<Node>) {
    forall i | 0 <= i < |nodes| :: nodes[i].id.CustomId?
  }

  /** The subscription stays configured, neither the record nor a row it hides is re-enabled, and the
      overrides are not cleared. */
  ghost predicate Spares(r: Rules, w: World, e: Event, id: NodeId, source: string) {
    && (e.Configure? ==> source in e.active)
    && (e.EnableNodes? ==> id !in e.ids && forall row | row in e.ids :: (row, id) !in Resolved(w.state, Originals(w), OwnersOf(r, Originals(w))))
    && (e.EditCustom? ==> CustomOnly(e.custom)) && !e.ClearOverrides?
  }

  ghost predicate SparesAll(r: Rules, w: World, run: seq<Event>, id: NodeId, source: string)
    decreases |run|
  {
    run == [] || (Spares(r, w, run[0], id, source) && SparesAll(r, After(r, w, run[0]), run[1..], id, source))
  }

  /** A deletion record with the evidence that keeps it alive and the signature that makes it work. */
  ghost predicate Recorded(s: State, id: NodeId, source: string, sig: Signature) {
    id in Deleted(s) && (id, source) in s.sources && (id, sig) in s.signatures
  }

  lemma PruneKeeps(s: State, active: set<string>, current: set<NodeId>, pruneUnknown: bool, id: NodeId, source: string, sig: Signature)
    requires Recorded(s, id, source, sig) && source in active
    ensures Recorded(Prune(s, active, current, pruneUnknown), id, source, sig)
    ensures Prune(s, active, current, pruneUnknown).custom == s.custom
  {
    var n := Normalized(s);
    assert (id, source) in n.sources;
    assert source in SourcesOf(n, id) * active;
  }

  lemma ConfigChangeKeeps(r: Rules, s: State, before: set<string>, after: set<string>, audit: set<(NodeId, string)>,
                          oldNodes: seq<Node>, newNodes: seq<Node>, complete: bool, id: NodeId, source: string, sig: Signature)
    requires Recorded(s, id, source, sig) && source in after
    ensures var s' := ConfigChange(r, s, before, after, audit, oldNodes, newNodes, complete);
            Recorded(s', id, source, sig) && s'.custom == s.custom
  {
    var a := FromAudit(Normalized(s), audit);
    PruneKeeps(FromNodes(r, a, oldNodes), after, Ids(newNodes), complete, id, source, sig);
    PruneKeeps(a, after, {}, false, id, source, sig);
  }

  lemma PruneCurrentKeeps(r: Rules, s: State, active: set<string>, audit: set<(NodeId, string)>, nodes: seq<Node>, complete: bool,
                          id: NodeId, source: string, sig: Signature)
    requires Recorded(s, id, source, sig) && source in active
    ensures var s' := PruneCurrent(r, s, active, audit, nodes, complete);
            Recorded(s', id, source, sig) && s'.custom == s.custom
  {
    PruneKeeps(FromAudit(FromNodes(r, Normalized(s), nodes), audit), active, Ids(nodes), complete, id, source, sig);
  }

  lemma WithoutIsCustom(nodes: seq<Node>, ids: set<NodeId>)
    requires CustomOnly(nodes)
    ensures CustomOnly(Without(nodes, ids))
  {
  }

  lemma DeleteKeeps(r: Rules, s: State, nodes: seq<Node>, ids: set<NodeId>, id: NodeId, source: string, sig: Signature)
    requires Recorded(s, id, source, sig) && !id.CustomId? && CustomOnly(s.custom)
    ensures Recorded(Delete(r, s, nodes, ids), id, source, sig) && CustomOnly(Delete(r, s, nodes, ids).custom)
  {
    assert id !in Ids(s.custom);
    WithoutIsCustom(s.custom, ids);
  }

  lemma StepKeepsRecord(r: Rules, w: World, e: Event, id: NodeId, source: string, sig: Signature)
    requires Recorded(w.state, id, source, sig) && source in w.active && !id.CustomId? && CustomOnly(w.state.custom)
    requires Spares(r, w, e, id, source)
    ensures var w' := After(r, w, e);
            Recorded(w'.state, id, source, sig) && source in w'.active && CustomOnly(w'.state.custom)
  {
    match e
    case Refresh(_) =>
    case Configure(active, nodes, audit, complete) =>
      ConfigChangeKeeps(r, w.state, w.active, active, audit, Originals(w), nodes + w.state.custom, complete, id, source, sig);
    case ListDeleted(audit, complete) => PruneCurrentKeeps(r, w.state, w.active, audit, Originals(w), complete, id, source, sig);
    case RestoreDraft(audit, complete) =>
      var n := FromAudit(Normalized(w.state), audit);
      PruneKeeps(n, w.active, {}, false, id, source, sig);
      PruneCurrentKeeps(r, Prune(n, w.active, {}, false), w.active, audit, Originals(w), complete, id, source, sig);
    case DeleteNodes(ids) => DeleteKeeps(r, w.state, Originals(w), ids, id, source, sig);
    case EnableNodes(ids) =>
    case DisableNodes(ids) =>
    case EditCustom(custom) =>
  }

  lemma {:induction false} RunKeepsRecord(r: Rules, w: World, run: seq<Event>, id: NodeId, source: string, sig: Signature)
    requires Recorded(w.state, id, source, sig) && source in w.active && !id.CustomId? && CustomOnly(w.state.custom)
    requires SparesAll(r, w, run, id, source)
    ensures Recorded(AfterAll(r, w, run).state, id, source, sig)
    decreases |run|
  {
    if run != [] {
      StepKeepsRecord(r, w, run[0], id, source, sig);
      RunKeepsRecord(r, After(r, w, run[0]), run[1..], id, source, sig);
    }
  }

  /** What a deletion of a subscription node with an unambiguous name leaves behind. */
  lemma DeletionIsRecorded(r: Rules, w: World, ids: set<NodeId>, n: Node, source: string, sig: Signature)
    requires n in w.nodes && n.id in ids && n.id != Blank && !n.id.CustomId? && CustomOnly(w.state.custom)
    requires source in SubscriptionSources(r, n) && Owns(r, Originals(w), sig, n.id)
    requires DeleteAllowed(w.state, Originals(w), ids)
    ensures Recorded(After(r, w, DeleteNodes(ids)).state, n.id, source, sig)
    ensures CustomOnly(After(r, w, DeleteNodes(ids)).state.custom)
  {
    var nodes := Originals(w);
    assert n in nodes && n.id !in Ids(w.state.custom);
    OwnersAreExact(r, nodes, sig, n.id);
    WithoutIsCustom(w.state.custom, ids);
    assert (n.id, source) in EvidenceOf(r, {n.id}, nodes);
    assert (n.id, sig) in Claims(OwnersOf(r, nodes), {n.id});
  }

  /** A deleted subscription node stays deleted: after any run in which its subscription stays configured and
      its record is not re-enabled, whatever id now unambiguously owns its name is hidden. */
  lemma DeletedStaysHidden(r: Rules, w: World, ids: set<NodeId>, n: Node, source: string, sig: Signature, run: seq<Event>, id: NodeId)
    requires n in w.nodes && n.id in ids && n.id != Blank && !n.id.CustomId? && CustomOnly(w.state.custom)
    requires source in SubscriptionSources(r, n) && source in w.active && Owns(r, Originals(w), sig, n.id)
    requires DeleteAllowed(w.state, Originals(w), ids)
    requires SparesAll(r, After(r, w, DeleteNodes(ids)), run, n.id, source)
    requires var end := AfterAll(r, After(r, w, DeleteNodes(ids)), run); id != Blank && Owns(r, Originals(end), sig, id)
    ensures var end := AfterAll(r, After(r, w, DeleteNodes(ids)), run); Hidden(r, end.state, Originals(end), id)
  {
    var start := After(r, w, DeleteNodes(ids));
    DeletionIsRecorded(r, w, ids, n, source, sig);
    RunKeepsRecord(r, start, run, n.id, source, sig);
    var end := AfterAll(r, start, run);
    HiddenIff(r, end.state, Originals(end), id);
    assert (n.id, sig) in end.state.signatures;
  }

  /** Re-enabling removes exactly the requested rows' records from every row, so it hides nothing new. */
  lemma EnableRemovesRecords(r: Rules, s: State, nodes: seq<Node>, ids: set<NodeId>)
    ensures var owners := OwnersOf(r, nodes);
            Resolved(Enable(r, s, nodes, ids), nodes, owners)
              == set p | p in Resolved(s, nodes, owners) && p.1 !in Expanded(r, s, nodes, ids)
  {
  }

  /** Re-enabling a row un-hides it, whatever records hid it. */
  lemma EnabledIsVisible(r: Rules, s: State, nodes: seq<Node>, ids: set<NodeId>, id: NodeId)
    requires id in ids
    ensures !Hidden(r, Enable(r, s, nodes, ids), nodes, id)
  {
  }

  /** `handleClearOverrides` forgets every deletion: afterwards nothing is hidden, and no record is left. */
  lemma ClearingShowsEverything(r: Rules, w: World, id: NodeId)
    ensures var end := After(r, w, ClearOverrides);
            !Hidden(r, end.state, Originals(end), id) && end.state.sources == {} && end.state.signatures == {}
  {
  }
}
