/** The editor lists deleted rows, the generator leaves deleted nodes out; both resolve the deletion records on
    their own, over lists they computed on their own. This module shows that they hide the same ids. */
module HiddenAgreement {
  import opened Nodes
  import opened NodeIdentity
  import opened NodeDeletion
  import FinalNodes

  /** Normalising the node again changes nothing that a signature or an id is made of. */
  ghost predicate Settled(r: Rules, n: Node) {
    && Clean(r, n)
    && (forall s | s in n.sources :: NormalizeSource(r, s) == s)
    && (r.trim(n.name) == "" ==> n.name == r.defaultName(n.proto, n.server, n.port))
  }

  lemma NormalizedIsSettled(r: Rules, n: Node)
    requires Sound(r)
    ensures Settled(r, Normalize(r, n))
  {
    MergedAreNormal(r, n.source, n.sources);
    var m := Normalize(r, n);
    forall s | s in m.sources ensures NormalizeSource(r, s) == s {
      var i :| 0 <= i < |m.sources| && m.sources[i] == s;
      assert NormalizeEach(r, m.sources)[i] == NormalizeSource(r, s);
    }
  }

  lemma AbsorbedSources(r: Rules, ss: seq<Source>, s: Source)
    requires Sound(r) && s in MergeSources(NormalizeEach(r, ss))
    ensures NormalizeSource(r, s) == s
  {
    var each := NormalizeEach(r, ss);
    MergedElements(each);
    var i :| 0 <= i < |each| && each[i] == s;
    SourceNormalOnce(r, ss[i]);
  }

  lemma AbsorbKeepsSettled(r: Rules, e: Node, d: Node)
    requires Sound(r) && Settled(r, e)
    ensures Settled(r, Absorb(r, e, d))
  {
    var n := Absorb(r, e, d);
    forall s | s in n.sources ensures NormalizeSource(r, s) == s {
      AbsorbedSources(r, e.sources + [e.source, d.source], s);
    }
  }

  lemma {:induction false} DedupeSettles(r: Rules, k: Keys, scope: Scope, nodes: seq<Node>)
    requires Sound(r) && forall n | n in nodes :: Settled(r, n)
    ensures forall n | n in Dedupe(r, k, scope, nodes) :: Settled(r, n)
  {
    if nodes != [] {
      var last := |nodes| - 1;
      DedupeSettles(r, k, scope, nodes[..last]);
      assert nodes[last] in nodes;
      StepSettles(r, k, scope, Dedupe(r, k, scope, nodes[..last]), nodes[last], last);
    }
  }

  lemma StepSettles(r: Rules, k: Keys, scope: Scope, out: seq<Node>, node: Node, index: nat)
    requires Sound(r) && Settled(r, node) && forall n | n in out :: Settled(r, n)
    ensures forall n | n in DedupeStep(r, k, scope, out, node, index) :: Settled(r, n)
  {
    var n := node.(id := CollectedId(r, node, scope, index));
    assert Settled(r, n);
    var i := if scope == Unscoped then -1 else Find(r, k, scope, out, KeyOf(r, k, n, scope, index));
    if i >= 0 {
      assert out[i] in out;
      AbsorbKeepsSettled(r, out[i], n);
    }
  }

  /** Settled nodes keep their signatures. */
  lemma CandidateKeepsSignatures(r: Rules, scope: Scope, n: Node, index: nat)
    requires Settled(r, n)
    ensures Signatures(r, Candidate(r, scope, n, index)) == Signatures(r, n)
  {
    var m := Normalize(r, n);
    var p := NormalizeSource(r, n.source);
    NormalizedStay(r, n.sources);
    MergedElements((if p == NO_SOURCE then [] else [p]) + n.sources);
    assert m.name == n.name && m.proto == n.proto && m.source == n.source;
    assert forall s :: Identifying(s) ==> (s in [m.source] + m.sources <==> s in [n.source] + n.sources);
  }

  lemma {:induction false} SameOwners(r: Rules, a: seq<Node>, b: seq<Node>)
    requires |a| == |b| && forall i | 0 <= i < |a| :: a[i].id == b[i].id && Signatures(r, a[i]) == Signatures(r, b[i])
    ensures OwnersOf(r, a) == OwnersOf(r, b)
  {
    if a != [] {
      SameOwners(r, a[..|a| - 1], b[..|b| - 1]);
    }
  }

  lemma SameOwn(a: seq<Node>, b: seq<Node>, deleted: set<NodeId>)
    requires |a| == |b| && forall i | 0 <= i < |a| :: a[i].id == b[i].id
    ensures Own(a, deleted) == Own(b, deleted)
  {
  }

  lemma ListedIsSettled(r: Rules, k: Keys, scope: Scope, raw: seq<Node>, custom: seq<Node>)
    requires Sound(r) && forall n | n in custom :: Settled(r, n)
    ensures forall n | n in Listed(r, k, scope, raw, custom) :: Settled(r, n)
  {
    forall n | n in NormalizeAll(r, raw) ensures Settled(r, n) {
      var i :| 0 <= i < |raw| && n == Normalize(r, raw[i]);
      NormalizedIsSettled(r, raw[i]);
    }
    DedupeSettles(r, k, scope, NormalizeAll(r, raw));
  }

  /** The generator leaves out exactly the ids that the editor shows as deleted. */
  lemma SameNodesAreHidden(r: Rules, k: Keys, cfg: FinalNodes.Settings, s: State, raw: seq<Node>, custom: seq<Node>)
    requires Sound(r) && forall n | n in custom :: n.id.CustomId? && Settled(r, n) && IsCustom(r, n)
    ensures var listed := Listed(r, k, cfg.scope, raw, custom);
            FinalNodes.Gone(r, s, FinalNodes.Candidates(r, cfg, listed)) == set p | p in Resolved(s, listed, OwnersOf(r, listed)) :: p.0
  {
    var listed := Listed(r, k, cfg.scope, raw, custom);
    var candidates := FinalNodes.Candidates(r, cfg, listed);
    IdsAgreeIff(r, k, cfg.scope, raw, custom);
    ListedIsSettled(r, k, cfg.scope, raw, custom);
    forall i | 0 <= i < |listed|
      ensures candidates[i].id == listed[i].id && Signatures(r, candidates[i]) == Signatures(r, listed[i])
    {
      assert listed[i] in listed && Agrees(r, cfg.scope, listed[i], i);
      CandidateKeepsSignatures(r, cfg.scope, listed[i], i);
    }
    SameOwners(r, candidates, listed);
    SameOwn(candidates, listed, Deleted(s));
  }

  /** The same for custom nodes as the program stores them. */
  lemma StoredNodesAreHiddenAlike(r: Rules, k: Keys, cfg: FinalNodes.Settings, s: State, raw: seq<Node>, customName: string, stored: seq<Node>)
    requires Sound(r) && AllCustomKind(r, stored)
    ensures var listed := Listed(r, k, cfg.scope, raw, LoadedCustom(r, customName, stored));
            FinalNodes.Gone(r, s, FinalNodes.Candidates(r, cfg, listed)) == set p | p in Resolved(s, listed, OwnersOf(r, listed)) :: p.0
  {
    var custom := LoadedCustom(r, customName, stored);
    LoadedAreCustom(r, customName, stored);
    forall m | m in custom ensures Settled(r, m) {
      LoadedComeFrom(r, customName, stored, m);
      var n :| n in stored && m == NormalizeCustom(r, n, customName);
      CustomIsSettled(r, n, customName);
    }
    SameNodesAreHidden(r, k, cfg, s, raw, custom);
  }

  lemma CustomIsSettled(r: Rules, n: Node, customName: string)
    requires Sound(r)
    ensures Settled(r, NormalizeCustom(r, n, customName))
  {
    var s := n.source;
    var filled := n.(source := Source(if r.trim(s.id) == "" then "custom" else s.id, if r.trim(s.name) == "" then customName else s.name,
                                      s.emoji, if r.trim(s.kind) == "" then "custom" else s.kind, s.urlHash));
    NormalizedIsSettled(r, filled);
  }
}
