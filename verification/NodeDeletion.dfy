/** Deletion records of subscription nodes: `internal/model/node_deletion.go`,
    `internal/api/node_state_cleanup.go` and the state changes of `internal/api/nodes.go`. A connection id
    changes when credentials rotate, so a deletion also remembers a name-based signature, which must
    never hide a node whose name is ambiguous. A map from ids to lists is modelled as a set of pairs. */
module NodeDeletion {
  import opened Nodes

  /** What a signature hashes. */
  datatype Signature = Signature(sourceId: string, urlHash: string, proto: string, name: string)

  predicate Identifying(s: Source) {
    s.kind == "subscription" && s.id != "" && s.urlHash != ""
  }

  /** `nodeDeletionSignatures`. */
  function Signatures(r: Rules, n: Node): set<Signature> {
    if r.trim(n.name) == "" then {}
    else set s | s in [n.source] + n.sources && Identifying(s) :: Signature(s.id, s.urlHash, n.proto, n.name)
  }

  ghost predicate Carried(r: Rules, nodes: seq<Node>, sig: Signature) {
    exists i :: 0 <= i < |nodes| && sig in Signatures(r, nodes[i])
  }

  /** Every node that carries the signature has this id, and some node does. */
  ghost predicate Owns(r: Rules, nodes: seq<Node>, sig: Signature, id: NodeId) {
    Carried(r, nodes, sig) && forall i | 0 <= i < |nodes| && sig in Signatures(r, nodes[i]) :: nodes[i].id == id
  }

  /** One node's signatures enter the table: a second id makes a signature ambiguous (Blank) for good. */
  function AddOwner(owners: map<Signature, NodeId>, sigs: set<Signature>, id: NodeId): map<Signature, NodeId> {
    map sig | sig in owners.Keys + sigs ::
      if sig !in sigs then owners[sig]
      else if sig !in owners || owners[sig] == id then id
      else Blank
  }

  function OwnersOf(r: Rules, nodes: seq<Node>): map<Signature, NodeId> {
    if nodes == [] then map[]
    else
      var last := nodes[|nodes| - 1];
      AddOwner(OwnersOf(r, nodes[..|nodes| - 1]), Signatures(r, last), last.id)
  }

  lemma OwnsSnoc(r: Rules, nodes: seq<Node>, n: Node, sig: Signature, id: NodeId)
    ensures Carried(r, nodes + [n], sig) <==> Carried(r, nodes, sig) || sig in Signatures(r, n)
    ensures Owns(r, nodes + [n], sig, id) <==>
              if sig in Signatures(r, n) then n.id == id && (Owns(r, nodes, sig, id) || !Carried(r, nodes, sig))
              else Owns(r, nodes, sig, id)
  {
    var all := nodes + [n];
    assert all[|nodes|] == n;
    if Carried(r, nodes, sig) {
      var i :| 0 <= i < |nodes| && sig in Signatures(r, nodes[i]);
      assert all[i] == nodes[i];
    }
    if Owns(r, all, sig, id) && Carried(r, nodes, sig) {
      assert forall i | 0 <= i < |nodes| :: all[i] == nodes[i];
    }
  }

  /** The table holds an id exactly for the signatures that are unambiguously its own. */
  lemma {:induction false} OwnersAreExact(r: Rules, nodes: seq<Node>, sig: Signature, id: NodeId)
    requires id != Blank
    ensures sig in OwnersOf(r, nodes) <==> Carried(r, nodes, sig)
    ensures sig in OwnersOf(r, nodes) && OwnersOf(r, nodes)[sig] == id <==> Owns(r, nodes, sig, id)
  {
    if nodes != [] {
      var init, last := nodes[..|nodes| - 1], nodes[|nodes| - 1];
      OwnersAreExact(r, init, sig, id);
      OwnsSnoc(r, init, last, sig, id);
      assert nodes == init + [last];
    }
  }

  method AddOwners(owners: map<Signature, NodeId>, sigs: set<Signature>, id: NodeId) returns (out: map<Signature, NodeId>)
    ensures out == AddOwner(owners, sigs, id)
  {
    out := owners;
    var todo := sigs;
    while todo != {}
      invariant todo <= sigs
      invariant out.Keys == owners.Keys + (sigs - todo)
      invariant forall sig | sig in out :: out[sig] == AddOwner(owners, sigs - todo, id)[sig]
      decreases todo
    {
      var sig :| sig in todo;
      todo := todo - {sig};
      if sig !in out {
        out := out[sig := id];
      } else if out[sig] != id {
        out := out[sig := Blank];
      }
    }
    assert sigs - todo == sigs;
  }

  /** `uniqueNodeDeletionSignatures`. */
  method UniqueSignatures(r: Rules, nodes: seq<Node>) returns (owners: map<Signature, NodeId>)
    ensures owners == OwnersOf(r, nodes)
  {
    owners := map[];
    for i := 0 to |nodes|
      invariant owners == OwnersOf(r, nodes[..i])
    {
      assert nodes[..i + 1][..i] == nodes[..i];
      owners := AddOwners(owners, Signatures(r, nodes[i]), nodes[i].id);
    }
    assert nodes[..|nodes|] == nodes;
  }

  // ---- State ----

  datatype State = State(
    deleted: set<NodeId>,
    disabled: set<NodeId>,
    sources: set<(NodeId, string)>,
    signatures: set<(NodeId, Signature)>,
    custom: seq<Node>)

  /** `DisabledNodeSet` of the deleted ids. */
  function Deleted(s: State): set<NodeId> {
    s.deleted - {Blank}
  }

  /** The deletion records in `NormalizeNodeState`: evidence is kept for deleted ids only. */
  function Normalized(s: State): State {
    s.(deleted := Deleted(s),
       sources := (set p | p in s.sources && p.0 in Deleted(s)),
       signatures := (set p | p in s.signatures && p.0 in Deleted(s)))
  }

  function SourcesOf(s: State, id: NodeId): set<string> {
    set p | p in s.sources && p.0 == id :: p.1
  }

  /** `subscriptionSourceIDs`. */
  function SubscriptionSources(r: Rules, n: Node): set<string> {
    set s | s in [n.source] + n.sources && r.lower(s.kind) == "subscription" && r.trim(s.id) != "" :: r.trim(s.id)
  }

  function EvidenceOf(r: Rules, deleted: set<NodeId>, nodes: seq<Node>): set<(NodeId, string)> {
    set n, source | n in nodes && n.id in deleted && source in SubscriptionSources(r, n) :: (n.id, source)
  }

  /** `rememberDeletedNodeSources`. */
  method RememberDeletedNodeSources(r: Rules, s: State, nodes: seq<Node>) returns (s': State)
    ensures s' == s.(sources := s.sources + EvidenceOf(r, Deleted(s), nodes))
  {
    s' := s;
    for i := 0 to |nodes|
      invariant s' == s.(sources := s'.sources)
      invariant s'.sources == s.sources + EvidenceOf(r, Deleted(s), nodes[..i])
    {
      EvidenceSnoc(r, Deleted(s), nodes, i);
      if nodes[i].id !in Deleted(s) {
        continue;
      }
      var id := nodes[i].id;
      s' := s'.(sources := s'.sources + set source | source in SubscriptionSources(r, nodes[i]) :: (id, source));
    }
    assert nodes[..|nodes|] == nodes;
  }

  lemma EvidenceSnoc(r: Rules, deleted: set<NodeId>, nodes: seq<Node>, i: nat)
    requires i < |nodes|
    ensures var id := nodes[i].id;
            EvidenceOf(r, deleted, nodes[..i + 1]) == EvidenceOf(r, deleted, nodes[..i])
              + if id in deleted then set source | source in SubscriptionSources(r, nodes[i]) :: (id, source) else {}
  {
    assert nodes[..i + 1] == nodes[..i] + [nodes[i]];
  }

  function Claims(owners: map<Signature, NodeId>, deleted: set<NodeId>): set<(NodeId, Signature)> {
    set sig | sig in owners && owners[sig] in deleted :: (owners[sig], sig)
  }

  /** `RememberDeletedNodeSignatures`, given the original, undecorated nodes. */
  method RememberDeletedNodeSignatures(r: Rules, s: State, nodes: seq<Node>) returns (s': State)
    ensures s' == s.(signatures := s.signatures + Claims(OwnersOf(r, nodes), Deleted(s)))
  {
    var owners := UniqueSignatures(r, nodes);
    var signatures := AddClaims(owners, Deleted(s), s.signatures);
    s' := s.(signatures := signatures);
  }

  method AddClaims(owners: map<Signature, NodeId>, deleted: set<NodeId>, known: set<(NodeId, Signature)>)
    returns (out: set<(NodeId, Signature)>)
    ensures out == known + Claims(owners, deleted)
  {
    out := known;
    var todo := owners.Keys;
    while todo != {}
      invariant todo <= owners.Keys
      invariant out == known + Claims(owners - todo, deleted)
      decreases todo
    {
      var sig :| sig in todo;
      ClaimOne(owners - todo, deleted, sig, owners[sig]);
      assert owners - (todo - {sig}) == (owners - todo)[sig := owners[sig]];
      todo := todo - {sig};
      if owners[sig] in deleted {
        out := out + {(owners[sig], sig)};
      }
    }
    assert owners - todo == owners;
  }

  lemma ClaimOne(owners: map<Signature, NodeId>, deleted: set<NodeId>, sig: Signature, id: NodeId)
    requires sig !in owners
    ensures Claims(owners[sig := id], deleted) == Claims(owners, deleted) + if id in deleted then {(id, sig)} else {}
  {
    var more := owners[sig := id];
    forall p | p in Claims(owners, deleted) ensures p in Claims(more, deleted) {
      assert p.1 in more && more[p.1] == p.0;
    }
    if id in deleted {
      assert sig in more && more[sig] == id;
    }
  }

  // ---- Which nodes are hidden, and by which records ----

  /** Current ids that are deleted themselves. */
  function Own(nodes: seq<Node>, deleted: set<NodeId>): set<(NodeId, NodeId)> {
    set n | n in nodes && n.id in deleted :: (n.id, n.id)
  }

  /** Current ids that unambiguously own a signature of a deletion record. */
  function Matches(records: set<(NodeId, Signature)>, deleted: set<NodeId>, owners: map<Signature, NodeId>): set<(NodeId, NodeId)> {
    set p | p in records && p.0 in deleted && p.1 in owners && owners[p.1] != Blank :: (owners[p.1], p.0)
  }

  /** Pairs of a current id and a deletion record it resolves to. */
  function Resolved(s: State, nodes: seq<Node>, owners: map<Signature, NodeId>): set<(NodeId, NodeId)> {
    Own(nodes, Deleted(s)) + Matches(s.signatures, Deleted(s), owners)
  }

  /** `ResolveDeletedNodes`. */
  method ResolveDeletedNodes(r: Rules, s: State, nodes: seq<Node>) returns (resolved: set<(NodeId, NodeId)>)
    ensures resolved == Resolved(s, nodes, OwnersOf(r, nodes))
  {
    resolved := {};
    for i := 0 to |nodes|
      invariant resolved == Own(nodes[..i], Deleted(s))
    {
      OwnSnoc(nodes, Deleted(s), i);
      if nodes[i].id in Deleted(s) {
        resolved := resolved + {(nodes[i].id, nodes[i].id)};
      }
    }
    assert nodes[..|nodes|] == nodes;
    if s.signatures == {} {
      assert Matches(s.signatures, Deleted(s), OwnersOf(r, nodes)) == {};
      return;
    }
    var owners := UniqueSignatures(r, nodes);
    var more := MatchRecords(s.signatures, Deleted(s), owners, resolved);
    resolved := more;
  }

  method MatchRecords(records: set<(NodeId, Signature)>, deleted: set<NodeId>, owners: map<Signature, NodeId>, known: set<(NodeId, NodeId)>)
    returns (out: set<(NodeId, NodeId)>)
    ensures out == known + Matches(records, deleted, owners)
  {
    out := known;
    var todo := records;
    while todo != {}
      invariant todo <= records
      invariant out == known + Matches(records - todo, deleted, owners)
      decreases todo
    {
      var record :| record in todo;
      MatchOne(records - todo, deleted, owners, record);
      assert records - (todo - {record}) == (records - todo) + {record};
      todo := todo - {record};
      if record.0 in deleted && record.1 in owners && owners[record.1] != Blank {
        out := out + {(owners[record.1], record.0)};
      }
    }
    assert records - todo == records;
  }

  lemma OwnSnoc(nodes: seq<Node>, deleted: set<NodeId>, i: nat)
    requires i < |nodes|
    ensures Own(nodes[..i + 1], deleted) == Own(nodes[..i], deleted) + if nodes[i].id in deleted then {(nodes[i].id, nodes[i].id)} else {}
  {
    assert nodes[..i + 1] == nodes[..i] + [nodes[i]];
  }

  lemma MatchOne(records: set<(NodeId, Signature)>, deleted: set<NodeId>, owners: map<Signature, NodeId>, p: (NodeId, Signature))
    ensures Matches(records + {p}, deleted, owners) == Matches(records, deleted, owners)
              + if p.0 in deleted && p.1 in owners && owners[p.1] != Blank then {(owners[p.1], p.0)} else {}
  {
  }

  ghost predicate Hidden(r: Rules, s: State, nodes: seq<Node>, id: NodeId) {
    exists record :: (id, record) in Resolved(s, nodes, OwnersOf(r, nodes))
  }

  /** A node is hidden exactly when its own id is deleted, or a deleted record carries a signature that no
      other id shares. */
  lemma HiddenIff(r: Rules, s: State, nodes: seq<Node>, id: NodeId)
    requires id != Blank
    ensures Hidden(r, s, nodes, id) <==>
              || (id in s.deleted && exists i :: 0 <= i < |nodes| && nodes[i].id == id)
              || (exists p :: p in s.signatures && p.0 in Deleted(s) && Owns(r, nodes, p.1, id))
  {
    var owners := OwnersOf(r, nodes);
    forall p | p in s.signatures
      ensures p.1 in owners && owners[p.1] == id <==> Owns(r, nodes, p.1, id)
    {
      OwnersAreExact(r, nodes, p.1, id);
    }
    if exists i :: 0 <= i < |nodes| && nodes[i].id == id && id in s.deleted {
      var i :| 0 <= i < |nodes| && nodes[i].id == id && id in s.deleted;
      assert nodes[i] in nodes && (id, id) in Resolved(s, nodes, owners);
    }
    if exists p :: p in s.signatures && p.0 in Deleted(s) && Owns(r, nodes, p.1, id) {
      var p :| p in s.signatures && p.0 in Deleted(s) && Owns(r, nodes, p.1, id);
      assert (id, p.0) in Resolved(s, nodes, owners);
    }
  }

  /** A signature that two ids share is inert: the records that carry it might as well not exist. */
  lemma AmbiguousIsInert(r: Rules, s: State, nodes: seq<Node>, sig: Signature, i: nat, j: nat)
    requires i < |nodes| && j < |nodes| && nodes[i].id != nodes[j].id
    requires sig in Signatures(r, nodes[i]) && sig in Signatures(r, nodes[j])
    ensures var without := s.(signatures := (set p | p in s.signatures && p.1 != sig));
            Resolved(s, nodes, OwnersOf(r, nodes)) == Resolved(without, nodes, OwnersOf(r, nodes))
  {
    var owners := OwnersOf(r, nodes);
    if sig in owners && owners[sig] != Blank {
      OwnersAreExact(r, nodes, sig, owners[sig]);
    }
  }
}
