/** What requests do to the deletion records, id by id: when a deletion is allowed and what it changes, and which records
    stay when the records are pruned. */
module DeletionOutcomes {
  import opened Nodes
  import opened NodeDeletion
  import opened DeletionRuns

  ghost predicate Listed(nodes: seq<Node>, id: NodeId) {
    exists i :: 0 <= i < |nodes| && nodes[i].id == id
  }

  /** A node with the id is in a subscription with this id. */
  ghost predicate FoundIn(r: Rules, nodes: seq<Node>, id: NodeId, source: string) {
    exists i, s: Source :: 0 <= i < |nodes| && nodes[i].id == id && (s == nodes[i].source || s in nodes[i].sources)
      && r.lower(s.kind) == "subscription" && source != "" && source == r.trim(s.id)
  }

  lemma FoundIff(r: Rules, nodes: seq<Node>, deleted: set<NodeId>, id: NodeId, source: string)
    requires id in deleted
    ensures (id, source) in EvidenceOf(r, deleted, nodes) <==> FoundIn(r, nodes, id, source)
  {
    if FoundIn(r, nodes, id, source) {
      var i, s: Source :| 0 <= i < |nodes| && nodes[i].id == id && (s == nodes[i].source || s in nodes[i].sources)
        && r.lower(s.kind) == "subscription" && source != "" && source == r.trim(s.id);
      assert s in [nodes[i].source] + nodes[i].sources && nodes[i] in nodes;
    }
    if (id, source) in EvidenceOf(r, deleted, nodes) {
      var n :| n in nodes && n.id == id && source in SubscriptionSources(r, n);
      var i :| 0 <= i < |nodes| && nodes[i] == n;
      var s :| s in [n.source] + n.sources && r.lower(s.kind) == "subscription" && r.trim(s.id) != "" && r.trim(s.id) == source;
    }
  }

  lemma ListedIff(nodes: seq<Node>, id: NodeId)
    ensures id in Ids(nodes) <==> id != Blank && Listed(nodes, id)
  {
    if Listed(nodes, id) {
      var i :| 0 <= i < |nodes| && nodes[i].id == id;
      assert nodes[i] in nodes;
    }
  }

  // ---- Deleting ----

  /** A deletion is refused unless every id is listed or deleted already. */
  lemma AllowedIff(s: State, nodes: seq<Node>, ids: set<NodeId>)
    ensures DeleteAllowed(s, nodes, ids) <==> ids != {} && forall id | id in ids :: id in s.deleted || (id != Blank && Listed(nodes, id))
  {
    forall id ensures id in Ids(nodes) <==> id != Blank && Listed(nodes, id) {
      ListedIff(nodes, id);
    }
  }

  lemma {:induction false} WithoutCounts(nodes: seq<Node>, ids: set<NodeId>, n: Node)
    ensures multiset(Without(nodes, ids))[n] == if n.id in ids then 0 else multiset(nodes)[n]
  {
    if nodes != [] {
      WithoutCounts(nodes[..|nodes| - 1], ids, n);
      assert nodes == nodes[..|nodes| - 1] + [nodes[|nodes| - 1]];
    }
  }

  lemma RefusedChangesNothing(r: Rules, w: World, ids: set<NodeId>)
    requires !DeleteAllowed(w.state, Originals(w), ids)
    ensures After(r, w, DeleteNodes(ids)) == w
  {
  }

  /** Custom nodes are gone at once and leave no record; other requested ids are deleted. */
  lemma DeletingIds(r: Rules, w: World, ids: set<NodeId>, id: NodeId)
    requires DeleteAllowed(w.state, Originals(w), ids)
    ensures var end := After(r, w, DeleteNodes(ids)).state;
            && (id in end.deleted <==> id != Blank && (id in w.state.deleted || id in ids) && !(id in ids && Listed(w.state.custom, id)))
            && (id in end.disabled <==> id in w.state.disabled && id !in ids)
            && forall n: Node | n.id == id :: multiset(end.custom)[n] == if id in ids then 0 else multiset(w.state.custom)[n]
  {
    ListedIff(w.state.custom, id);
    forall n: Node | n.id == id ensures multiset(Without(w.state.custom, ids))[n] == if id in ids then 0 else multiset(w.state.custom)[n] {
      WithoutCounts(w.state.custom, ids, n);
    }
  }

  /** A deleted id is remembered with the subscriptions it is found in and the signatures it alone has, besides what
      was known of it. */
  lemma DeletingRemembers(r: Rules, w: World, ids: set<NodeId>, id: NodeId, source: string, sig: Signature)
    requires DeleteAllowed(w.state, Originals(w), ids)
    ensures var end := After(r, w, DeleteNodes(ids)).state;
            && ((id, source) in end.sources <==> id in end.deleted && ((id, source) in w.state.sources || FoundIn(r, Originals(w), id, source)))
            && ((id, sig) in end.signatures <==> id in end.deleted && ((id, sig) in w.state.signatures || Owns(r, Originals(w), sig, id)))
  {
    var end, nodes := After(r, w, DeleteNodes(ids)).state, Originals(w);
    DeletingIds(r, w, ids, id);
    if id in end.deleted {
      FoundIff(r, nodes, end.deleted, id, source);
      OwnersAreExact(r, nodes, sig, id);
      DeletedRecords(r, w.state, nodes, ids, id, source, sig);
    }
  }

  lemma DeletedRecords(r: Rules, s: State, nodes: seq<Node>, ids: set<NodeId>, id: NodeId, source: string, sig: Signature)
    requires DeleteAllowed(s, nodes, ids) && id in Delete(r, s, nodes, ids).deleted
    ensures var end, owners := Delete(r, s, nodes, ids), OwnersOf(r, nodes);
            && ((id, source) in end.sources <==> (id, source) in s.sources || (id, source) in EvidenceOf(r, end.deleted, nodes))
            && ((id, sig) in end.signatures <==> (id, sig) in s.signatures || (sig in owners && owners[sig] == id))
  {
  }

  // ---- Pruning ----

  /** The record has been seen in the subscription, as the state or the audit knows. */
  ghost predicate KnownIn(s: State, audit: set<(NodeId, string)>, id: NodeId, source: string) {
    (id, source) in s.sources || (id, source) in audit
  }

  /** The record stays: its node is listed, or a subscription it was seen in is configured, or it was seen in none and the
      collection was not complete. */
  ghost predicate Stays(seen: string -> bool, active: set<string>, listed: bool, complete: bool) {
    listed || (exists source :: source in active && seen(source)) || (!complete && forall source :: !seen(source))
  }

  lemma KeepsIff(s: State, active: set<string>, current: set<NodeId>, pruneUnknown: bool, id: NodeId, seen: string -> bool)
    requires forall source :: seen(source) <==> (id, source) in s.sources
    ensures Keeps(s, active, current, pruneUnknown, id) <==> Stays(seen, active, id in current, pruneUnknown)
  {
    forall source ensures source in SourcesOf(s, id) <==> seen(source) {
      assert source in SourcesOf(s, id) <==> (id, source) in s.sources;
    }
    MeetIff(SourcesOf(s, id), active);
  }

  /** Listing the deleted nodes prunes exactly the records that do not stay, by all evidence at hand. */
  lemma ListingPrunes(r: Rules, w: World, audit: set<(NodeId, string)>, complete: bool, id: NodeId, seen: string -> bool)
    requires forall source :: seen(source) <==> KnownIn(w.state, audit, id, source) || FoundIn(r, Originals(w), id, source)
    ensures id in After(r, w, ListDeleted(audit, complete)).state.deleted
            <==> id in Deleted(w.state) && Stays(seen, w.active, Listed(Originals(w), id), complete)
  {
    CurrentPrunes(r, w.state, w.active, audit, Originals(w), complete, id, seen);
  }

  lemma CurrentPrunes(r: Rules, s: State, active: set<string>, audit: set<(NodeId, string)>, nodes: seq<Node>, complete: bool,
                      id: NodeId, seen: string -> bool)
    requires forall source :: seen(source) <==> KnownIn(s, audit, id, source) || FoundIn(r, nodes, id, source)
    ensures id in PruneCurrent(r, s, active, audit, nodes, complete).deleted
            <==> id in Deleted(s) && Stays(seen, active, Listed(nodes, id), complete)
  {
    if id in Deleted(s) {
      var f := Normalized(FromAudit(FromNodes(r, Normalized(s), nodes), audit));
      forall source ensures seen(source) <==> (id, source) in f.sources {
        FoundIff(r, nodes, Deleted(s), id, source);
      }
      KeepsIff(f, active, Ids(nodes), complete, id, seen);
      ListedIff(nodes, id);
    }
  }

  /** Restoring a draft prunes first by what is known, even records of listed nodes; the listed nodes are looked at only
      for records that nothing is known of. */
  lemma RestoringPrunes(r: Rules, w: World, audit: set<(NodeId, string)>, complete: bool, id: NodeId, found: string -> bool)
    requires forall source :: found(source) <==> FoundIn(r, Originals(w), id, source)
    ensures id in After(r, w, RestoreDraft(audit, complete)).state.deleted
            <==> id in Deleted(w.state)
                 && if exists source :: KnownIn(w.state, audit, id, source)
                    then exists source :: source in w.active && KnownIn(w.state, audit, id, source)
                    else Stays(found, w.active, Listed(Originals(w), id), complete)
  {
    var first := PrunedByKnown(w.state, w.active, audit);
    KnownPrunes(w.state, w.active, audit, id);
    if (exists source :: KnownIn(w.state, audit, id, source)) || id !in first.deleted {
      RestoredKnown(r, w, audit, complete, id);
    } else {
      RestoredUnknown(r, w, audit, complete, id, found);
    }
  }

  /** The first pass over a restored draft. */
  ghost function PrunedByKnown(s: State, active: set<string>, audit: set<(NodeId, string)>): State {
    Prune(FromAudit(Normalized(s), audit), active, {}, false)
  }

  lemma KnownPrunes(s: State, active: set<string>, audit: set<(NodeId, string)>, id: NodeId)
    ensures var n := PrunedByKnown(s, active, audit);
            && (id in n.deleted <==> id in Deleted(s) && ((exists source :: source in active && KnownIn(s, audit, id, source))
                                                          || forall source :: !KnownIn(s, audit, id, source)))
            && (id in n.deleted ==> forall source :: (id, source) in n.sources <==> KnownIn(s, audit, id, source))
            && Deleted(n) == n.deleted
  {
    if id in Deleted(s) {
      var known := iset source | KnownIn(s, audit, id, source);
      KeepsIff(Normalized(FromAudit(Normalized(s), audit)), active, {}, false, id, source => source in known);
    }
  }

  lemma RestoredKnown(r: Rules, w: World, audit: set<(NodeId, string)>, complete: bool, id: NodeId)
    requires var n := PrunedByKnown(w.state, w.active, audit);
             id in n.deleted ==> exists source :: source in w.active && (id, source) in n.sources
    ensures id in After(r, w, RestoreDraft(audit, complete)).state.deleted <==> id in PrunedByKnown(w.state, w.active, audit).deleted
  {
    var n := PrunedByKnown(w.state, w.active, audit);
    var nodes := Originals(w);
    var seen := iset source | KnownIn(n, audit, id, source) || FoundIn(r, nodes, id, source);
    CurrentPrunes(r, n, w.active, audit, nodes, complete, id, source => source in seen);
    if id in n.deleted {
      var source :| source in w.active && (id, source) in n.sources;
      assert source in seen;
    }
  }

  lemma RestoredUnknown(r: Rules, w: World, audit: set<(NodeId, string)>, complete: bool, id: NodeId, found: string -> bool)
    requires forall source :: found(source) <==> FoundIn(r, Originals(w), id, source)
    requires var n := PrunedByKnown(w.state, w.active, audit); id in n.deleted && Deleted(n) == n.deleted
    requires forall source :: !KnownIn(PrunedByKnown(w.state, w.active, audit), audit, id, source)
    ensures id in After(r, w, RestoreDraft(audit, complete)).state.deleted <==> Stays(found, w.active, Listed(Originals(w), id), complete)
  {
    var n := PrunedByKnown(w.state, w.active, audit);
    assert SourcesOf(n, id) == {} by {
      forall source ensures source !in SourcesOf(n, id) {
        assert !KnownIn(n, audit, id, source);
        assert source in SourcesOf(n, id) <==> (id, source) in n.sources;
      }
    }
    CurrentPrunes(r, n, w.active, audit, Originals(w), complete, id, found);
  }

  // ---- Removing a subscription ----

  /** The removal of a subscription makes the program collect the nodes, because nothing is known of some record. */
  ghost predicate Looks(w: World, e: Event)
    requires e.Configure?
  {
    exists id :: id in w.state.deleted && id != Blank && forall source :: !KnownIn(w.state, e.audit, id, source)
  }

  lemma LooksIff(w: World, e: Event)
    requires e.Configure?
    ensures Looks(w, e) <==> HasUnknown(FromAudit(Normalized(w.state), e.audit))
  {
    var a := FromAudit(Normalized(w.state), e.audit);
    assert a.deleted == Deleted(w.state);
    forall id | id in a.deleted ensures SourcesOf(a, id) == {} <==> forall source :: !KnownIn(w.state, e.audit, id, source) {
      forall source ensures source in SourcesOf(a, id) <==> KnownIn(w.state, e.audit, id, source) {
        assert source in SourcesOf(a, id) <==> (id, source) in a.sources;
      }
      if SourcesOf(a, id) != {} {
        var source :| source in SourcesOf(a, id);
        assert KnownIn(w.state, e.audit, id, source);
      }
    }
    if HasUnknown(a) {
      var id :| id in a.deleted && SourcesOf(a, id) == {};
      assert id in w.state.deleted && id != Blank;
    }
    if Looks(w, e) {
      var id :| id in w.state.deleted && id != Blank && forall source :: !KnownIn(w.state, e.audit, id, source);
      assert id in a.deleted && SourcesOf(a, id) == {};
    }
  }

  /** The subscriptions a record was seen in, by any evidence at hand. */
  ghost predicate SeenIn(r: Rules, w: World, e: Event, id: NodeId, source: string)
    requires e.Configure?
  {
    KnownIn(w.state, e.audit, id, source) || (Looks(w, e) && FoundIn(r, Originals(w), id, source))
  }

  /** When a subscription is removed, a record survives exactly when its node is still collected by a program that
      had to collect, or a subscription it was seen in is still configured, or it was seen in none and the
      collection was not complete. */
  lemma RecordSurvivesIff(r: Rules, w: World, e: Event, id: NodeId)
    requires e.Configure? && w.active - e.active != {} && id in Deleted(w.state)
    ensures id in After(r, w, e).state.deleted <==>
              || (Looks(w, e) && Listed(e.nodes + w.state.custom, id))
              || (exists source :: source in e.active && SeenIn(r, w, e, id, source))
              || (!e.complete && forall source :: !SeenIn(r, w, e, id, source))
  {
    LooksIff(w, e);
    var a := FromAudit(Normalized(w.state), e.audit);
    var f := if Looks(w, e) then FromNodes(r, a, Originals(w)) else a;
    forall source ensures source in SourcesOf(Normalized(f), id) <==> SeenIn(r, w, e, id, source) {
      assert source in SourcesOf(f, id) <==> (id, source) in f.sources;
      FoundIff(r, Originals(w), Deleted(a), id, source);
    }
    ListedIff(e.nodes + w.state.custom, id);
    MeetIff(SourcesOf(Normalized(f), id), e.active);
    if SourcesOf(Normalized(f), id) == {} {
      NoEvidenceLooks(r, w, e, id);
    }
  }

  /** Where no subscription is removed, no record is. */
  lemma NothingRemovedKeeps(r: Rules, w: World, e: Event)
    requires e.Configure? && w.active <= e.active
    ensures After(r, w, e).state == Normalized(w.state)
  {
    assert w.active - e.active == {};
  }

  lemma NoEvidenceLooks(r: Rules, w: World, e: Event, id: NodeId)
    requires e.Configure? && id in Deleted(w.state) && forall source :: !SeenIn(r, w, e, id, source)
    ensures Looks(w, e)
  {
    forall source ensures !KnownIn(w.state, e.audit, id, source) {
      assert !SeenIn(r, w, e, id, source);
    }
  }

  lemma MeetIff(a: set<string>, b: set<string>)
    ensures a * b != {} <==> exists x :: x in b && x in a
  {
    if a * b != {} {
      var x :| x in a * b;
    }
    if x :| x in b && x in a {
      assert x in a * b;
    }
  }
}
