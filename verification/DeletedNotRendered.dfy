/** Deletion from end to end: from the request that deletes a node, over any run of the workspace, to the final node list. */
module DeletedNotRendered {
  import opened Nodes
  import opened NodeIdentity
  import opened NodeDeletion
  import opened DeletionRuns
  import FinalNodes
  import FinalNodeLaws
  import HiddenAgreement

  /** The world holds what the program collects from the downloaded nodes and loads from the stored custom nodes. */
  ghost predicate Collected(r: Rules, k: Keys, scope: Scope, w: World, raw: seq<Node>, customName: string, stored: seq<Node>) {
    && w.nodes == Dedupe(r, k, scope, NormalizeAll(r, raw))
    && w.state.custom == LoadedCustom(r, customName, stored) && AllCustomKind(r, stored)
  }

  /** What the editor shows as deleted is in no output, whatever the filters, the overrides and the scope are. */
  lemma HiddenIsNotRendered(r: Rules, k: Keys, cfg: FinalNodes.Settings, w: World, raw: seq<Node>, customName: string, stored: seq<Node>,
                            overrides: map<NodeId, FinalNodes.Override>, id: NodeId, m: Node)
    requires Sound(r) && Collected(r, k, cfg.scope, w, raw, customName, stored) && Hidden(r, w.state, Originals(w), id)
    requires m in FinalNodes.Built(r, cfg, w.state, overrides, Originals(w)).nodes
    ensures m.id != id
  {
    var listed := Originals(w);
    HiddenAgreement.StoredNodesAreHiddenAlike(r, k, cfg, w.state, raw, customName, stored);
    FinalNodeLaws.NothingHiddenGetsThrough(r, cfg, w.state, overrides, listed, m);
    var record :| (id, record) in Resolved(w.state, listed, OwnersOf(r, listed));
    assert (id, record).0 == id;
  }

  /** A subscription node with an unambiguous name is deleted. After any run in which its subscription stays configured
      and it is not re-enabled, whatever node then alone carries its name, under whatever id, is not in the output. */
  lemma DeletedIsNeverRendered(r: Rules, k: Keys, cfg: FinalNodes.Settings, w: World, ids: set<NodeId>, n: Node, source: string, sig: Signature,
                               run: seq<Event>, raw: seq<Node>, customName: string, stored: seq<Node>,
                               overrides: map<NodeId, FinalNodes.Override>, id: NodeId, m: Node)
    requires Sound(r) && n in w.nodes && n.id in ids && n.id != Blank && !n.id.CustomId? && CustomOnly(w.state.custom)
    requires source in SubscriptionSources(r, n) && source in w.active && Owns(r, Originals(w), sig, n.id)
    requires DeleteAllowed(w.state, Originals(w), ids)
    requires SparesAll(r, After(r, w, DeleteNodes(ids)), run, n.id, source)
    requires var end := AfterAll(r, After(r, w, DeleteNodes(ids)), run);
             && Collected(r, k, cfg.scope, end, raw, customName, stored) && id != Blank && Owns(r, Originals(end), sig, id)
             && m in FinalNodes.Built(r, cfg, end.state, overrides, Originals(end)).nodes
    ensures m.id != id
  {
    DeletedStaysHidden(r, w, ids, n, source, sig, run, id);
    var end := AfterAll(r, After(r, w, DeleteNodes(ids)), run);
    HiddenIsNotRendered(r, k, cfg, end, raw, customName, stored, overrides, id, m);
  }

  // ---- Disabling and re-enabling ----

  /** Disabling ids disables them and nothing else; the deletion records stay. */
  lemma DisablingAddsIds(r: Rules, w: World, ids: set<NodeId>, id: NodeId)
    ensures var end := After(r, w, DisableNodes(ids));
            && (id in end.state.disabled <==> id in w.state.disabled || id in ids)
            && (id in end.state.deleted <==> id in w.state.deleted && id != Blank)
            && (forall source :: (id, source) in end.state.sources <==> (id, source) in w.state.sources && id in end.state.deleted)
            && (forall sig :: (id, sig) in end.state.signatures <==> (id, sig) in w.state.signatures && id in end.state.deleted)
            && end.state.custom == w.state.custom && end.nodes == w.nodes && end.active == w.active
  {
  }

  /** A disabled node is in no output. */
  lemma DisabledIsNotRendered(r: Rules, cfg: FinalNodes.Settings, w: World, ids: set<NodeId>, overrides: map<NodeId, FinalNodes.Override>, m: Node)
    requires Sound(r)
    requires var end := After(r, w, DisableNodes(ids)); m in FinalNodes.Built(r, cfg, end.state, overrides, Originals(end)).nodes
    ensures m.id !in ids
  {
    var end := After(r, w, DisableNodes(ids));
    FinalNodeLaws.NothingHiddenGetsThrough(r, cfg, end.state, overrides, Originals(end), m);
    DisablingAddsIds(r, w, ids, m.id);
  }

  /** Re-enabling takes the requested ids, and the records that hide them, out of both lists, and nothing else out of
      either; afterwards no requested id is kept out of the output by the state. */
  lemma EnabledIsBack(r: Rules, w: World, ids: set<NodeId>, id: NodeId)
    requires forall p | p in w.state.signatures :: p.0 in Deleted(w.state)
    ensures var end := After(r, w, EnableNodes(ids));
            var hides := id in ids || (w.state.signatures != {} && exists row :: row in ids && (row, id) in Resolved(w.state, Originals(w), OwnersOf(r, Originals(w))));
            && (id in end.state.disabled <==> id in w.state.disabled && !hides)
            && (id in end.state.deleted <==> id in w.state.deleted && id != Blank && !hides)
            && (id in ids ==> !Hidden(r, end.state, Originals(end), id))
            && end.state.custom == w.state.custom && end.nodes == w.nodes && end.active == w.active
  {
    if id in ids {
      EnabledIsVisible(r, w.state, Originals(w), ids, id);
    }
  }
}
