/** Deletion told by the fields of nodes: which subscription, protocol and name a deleted node had, and which nodes that
    hides later. */
module DeletionByName {
  import opened Nodes
  import opened NodeDeletion
  import opened DeletionRuns
  import NodeIdentity
  import FinalNodes
  import DeletedNotRendered

  /** What stays the same when a subscription hands out a new id for a node. */
  datatype Label = Label(source: string, urlHash: string, proto: string, name: string)

  /** The node has this protocol and name, and is in this subscription. */
  ghost predicate Called(r: Rules, n: Node, l: Label) {
    && r.trim(n.name) != "" && n.proto == l.proto && n.name == l.name && l.source != "" && l.urlHash != ""
    && exists s: Source :: (s == n.source || s in n.sources) && s.kind == "subscription" && s.id == l.source && s.urlHash == l.urlHash
  }

  /** Some listed node is called so, and all that are have this id. */
  ghost predicate AloneCalled(r: Rules, nodes: seq<Node>, l: Label, id: NodeId) {
    && (exists i :: 0 <= i < |nodes| && Called(r, nodes[i], l))
    && (forall i | 0 <= i < |nodes| && Called(r, nodes[i], l) :: nodes[i].id == id)
  }

  function Signed(l: Label): Signature {
    Signature(l.source, l.urlHash, l.proto, l.name)
  }

  /** Subscription ids are stored without outer space, and folding leaves the kind alone. */
  ghost predicate PlainSource(r: Rules, l: Label) {
    r.trim(l.source) == l.source && r.lower("subscription") == "subscription"
  }

  /** A signature is exactly such a label. */
  lemma CalledIsSigned(r: Rules, n: Node, l: Label)
    ensures Called(r, n, l) <==> Signed(l) in Signatures(r, n)
  {
    if Called(r, n, l) {
      var s: Source :| (s == n.source || s in n.sources) && s.kind == "subscription" && s.id == l.source && s.urlHash == l.urlHash;
      assert s in [n.source] + n.sources && Identifying(s);
    }
  }

  lemma CalledIsSeen(r: Rules, n: Node, l: Label)
    requires Called(r, n, l) && PlainSource(r, l)
    ensures l.source in SubscriptionSources(r, n)
  {
    var s: Source :| (s == n.source || s in n.sources) && s.kind == "subscription" && s.id == l.source && s.urlHash == l.urlHash;
    assert s in [n.source] + n.sources && r.trim(s.id) == l.source;
  }

  lemma AloneIsOwner(r: Rules, nodes: seq<Node>, l: Label, id: NodeId)
    ensures AloneCalled(r, nodes, l, id) <==> Owns(r, nodes, Signed(l), id)
  {
    forall i | 0 <= i < |nodes| ensures Called(r, nodes[i], l) <==> Signed(l) in Signatures(r, nodes[i]) {
      CalledIsSigned(r, nodes[i], l);
    }
  }

  /** A node that alone has its name in a subscription is deleted. After any run in which that subscription stays
      configured and the node is not re-enabled, the node that alone has the name is hidden, whatever its id is. */
  lemma NameStaysHidden(r: Rules, w: World, ids: set<NodeId>, n: Node, l: Label, run: seq<Event>, m: Node)
    requires n in w.nodes && n.id in ids && n.id != Blank && !n.id.CustomId? && CustomOnly(w.state.custom)
    requires Called(r, n, l) && AloneCalled(r, Originals(w), l, n.id) && PlainSource(r, l) && l.source in w.active
    requires DeleteAllowed(w.state, Originals(w), ids)
    requires SparesAll(r, After(r, w, DeleteNodes(ids)), run, n.id, l.source)
    requires var end := AfterAll(r, After(r, w, DeleteNodes(ids)), run);
             m in Originals(end) && m.id != Blank && Called(r, m, l) && AloneCalled(r, Originals(end), l, m.id)
    ensures var end := AfterAll(r, After(r, w, DeleteNodes(ids)), run); Hidden(r, end.state, Originals(end), m.id)
  {
    var end := AfterAll(r, After(r, w, DeleteNodes(ids)), run);
    AloneIsOwner(r, Originals(w), l, n.id);
    AloneIsOwner(r, Originals(end), l, m.id);
    CalledIsSeen(r, n, l);
    DeletedStaysHidden(r, w, ids, n, l.source, Signed(l), run, m.id);
  }

  /** And it is in no output. */
  lemma NameIsNeverRendered(r: Rules, k: NodeIdentity.Keys, cfg: FinalNodes.Settings, w: World, ids: set<NodeId>, n: Node, l: Label,
                            run: seq<Event>, raw: seq<Node>, customName: string, stored: seq<Node>,
                            overrides: map<NodeId, FinalNodes.Override>, m: Node, o: Node)
    requires Sound(r) && n in w.nodes && n.id in ids && n.id != Blank && !n.id.CustomId? && CustomOnly(w.state.custom)
    requires Called(r, n, l) && AloneCalled(r, Originals(w), l, n.id) && PlainSource(r, l) && l.source in w.active
    requires DeleteAllowed(w.state, Originals(w), ids)
    requires SparesAll(r, After(r, w, DeleteNodes(ids)), run, n.id, l.source)
    requires var end := AfterAll(r, After(r, w, DeleteNodes(ids)), run);
             && DeletedNotRendered.Collected(r, k, cfg.scope, end, raw, customName, stored)
             && m in Originals(end) && m.id != Blank && Called(r, m, l) && AloneCalled(r, Originals(end), l, m.id)
             && o in FinalNodes.Built(r, cfg, end.state, overrides, Originals(end)).nodes
    ensures o.id != m.id
  {
    NameStaysHidden(r, w, ids, n, l, run, m);
    var end := AfterAll(r, After(r, w, DeleteNodes(ids)), run);
    DeletedNotRendered.HiddenIsNotRendered(r, k, cfg, end, raw, customName, stored, overrides, m.id, o);
  }

  /** A deletion records nothing but what deleted nodes alone are called. */
  lemma RecordsAreNames(r: Rules, w: World, ids: set<NodeId>, p: (NodeId, Signature))
    requires DeleteAllowed(w.state, Originals(w), ids)
    requires p in After(r, w, DeleteNodes(ids)).state.signatures && p !in w.state.signatures
    ensures p.0 in Deleted(After(r, w, DeleteNodes(ids)).state)
    ensures AloneCalled(r, Originals(w), Label(p.1.sourceId, p.1.urlHash, p.1.proto, p.1.name), p.0)
  {
    var l := Label(p.1.sourceId, p.1.urlHash, p.1.proto, p.1.name);
    OwnersAreExact(r, Originals(w), p.1, p.0);
    AloneIsOwner(r, Originals(w), l, p.0);
  }

  /** Records hide an id that is not deleted itself only under the very name they were made for. */
  lemma RecordsHideTheirNameOnly(r: Rules, s: State, nodes: seq<Node>, id: NodeId)
    requires id != Blank && id !in s.deleted && Hidden(r, s, nodes, id)
    ensures exists p :: p in s.signatures && p.0 in Deleted(s) && AloneCalled(r, nodes, Label(p.1.sourceId, p.1.urlHash, p.1.proto, p.1.name), id)
  {
    HiddenIff(r, s, nodes, id);
    var p :| p in s.signatures && p.0 in Deleted(s) && Owns(r, nodes, p.1, id);
    AloneIsOwner(r, nodes, Label(p.1.sourceId, p.1.urlHash, p.1.proto, p.1.name), id);
  }

  /** So a deletion, where there was no record before, hides a node that is not deleted itself only if a deleted node was
      called the same: in the same subscription, with the same protocol and name. */
  lemma OtherNamesStayVisible(r: Rules, w: World, ids: set<NodeId>, nodes: seq<Node>, id: NodeId)
    requires DeleteAllowed(w.state, Originals(w), ids) && w.state.signatures == {}
    requires var s := After(r, w, DeleteNodes(ids)).state; id != Blank && id !in s.deleted && Hidden(r, s, nodes, id)
    ensures exists l, i, j :: 0 <= i < |Originals(w)| && 0 <= j < |nodes| && nodes[j].id == id
              && Originals(w)[i].id in Deleted(After(r, w, DeleteNodes(ids)).state)
              && Called(r, Originals(w)[i], l) && Called(r, nodes[j], l)
  {
    var s := After(r, w, DeleteNodes(ids)).state;
    RecordsHideTheirNameOnly(r, s, nodes, id);
    var p :| p in s.signatures && p.0 in Deleted(s) && AloneCalled(r, nodes, Label(p.1.sourceId, p.1.urlHash, p.1.proto, p.1.name), id);
    RecordsAreNames(r, w, ids, p);
    var l := Label(p.1.sourceId, p.1.urlHash, p.1.proto, p.1.name);
    var i :| 0 <= i < |Originals(w)| && Called(r, Originals(w)[i], l);
    var j :| 0 <= j < |nodes| && Called(r, nodes[j], l);
  }
}
