/** What `BuildFinalNodes` promises as a whole: every candidate is accounted for once, each candidate's fate is
    decided by that candidate alone, nothing disabled or deleted gets through, and deduplication drops copies
    but neither connections nor provenance. */
module FinalNodeLaws {
  import opened Common
  import opened Text
  import opened Nodes
  import opened FinalNodes
  import NodeDeletion
  import ProxyNames

  // ---- What matters about a node ----

  /** A final node without its name and protocol details: its connection, its id, the candidate it comes from
      and what it is shown with. */
  datatype Essence = Essence(key: NodeId, id: NodeId, position: nat, marks: set<Mark>)

  /** What copies of a node may add to it: a source, a tag, a warning. */
  datatype Mark = Seen(source: Source) | Tagged(tag: string) | Warned(text: string)

  function MarkSet(sources: seq<Source>, tags: set<string>, warnings: set<string>): set<Mark> {
    (set s | s in sources :: Seen(s)) + (set t | t in tags :: Tagged(t)) + (set t | t in warnings :: Warned(t))
  }

  /** The sources, and the trimmed tags and warnings that are not blank. */
  function Marks(r: Rules, n: Node): set<Mark> {
    MarkSet(View(r, n), set t | t in n.tags && r.trim(t) != "" :: r.trim(t), set t | t in n.warnings && r.trim(t) != "" :: r.trim(t))
  }

  lemma MarksTrimmed(r: Rules, n: Node)
    ensures Marks(r, n) == MarkSet(View(r, n), TrimAll(r, n.tags), TrimAll(r, n.warnings))
  {
    assert (set t | t in n.tags && r.trim(t) != "" :: r.trim(t)) == TrimAll(r, n.tags);
    assert (set t | t in n.warnings && r.trim(t) != "" :: r.trim(t)) == TrimAll(r, n.warnings);
  }

  function EssenceOf(r: Rules, scope: Scope, n: Node): Essence {
    Essence(Key(r, scope, n), n.id, n.position, Marks(r, n))
  }

  function Maker(r: Rules, scope: Scope): Node -> Essence {
    n => EssenceOf(r, scope, n)
  }

  function Mapped<A, B>(f: A -> B, values: seq<A>): seq<B> {
    seq(|values|, i requires 0 <= i < |values| => f(values[i]))
  }

  lemma MappedHead<A, B>(f: A -> B, values: seq<A>)
    requires values != []
    ensures Mapped(f, values) == [f(values[0])] + Mapped(f, values[1..])
  {
  }

  function Essences(r: Rules, scope: Scope, nodes: seq<Node>): seq<Essence> {
    Mapped(Maker(r, scope), nodes)
  }

  ghost predicate KeysDiffer(es: seq<Essence>) {
    forall i, j | 0 <= i < j < |es| :: es[i].key != es[j].key
  }

  // ---- Presentation changes names and order only ----

  lemma RenamedEssences(r: Rules, scope: Scope, nodes: seq<Node>, names: seq<string>)
    requires |names| == |nodes|
    ensures Essences(r, scope, Renamed(nodes, names)) == Essences(r, scope, nodes)
  {
  }

  lemma {:induction false} InsertedAt(r: Rules, n: Node, nodes: seq<Node>) returns (i: nat)
    ensures i <= |nodes| && InsertByDisplay(r, n, nodes) == nodes[..i] + [n] + nodes[i..]
  {
    i := 0;
    if nodes != [] && Less(r.lower(nodes[0].name), r.lower(n.name)) {
      var j := InsertedAt(r, n, nodes[1..]);
      i := j + 1;
      assert nodes[..i] == [nodes[0]] + nodes[1..][..j] && nodes[i..] == nodes[1..][j..];
    }
  }

  lemma InsertMultiset(es: seq<Essence>, e: Essence, i: nat)
    requires i <= |es|
    ensures multiset(es[..i] + [e] + es[i..]) == multiset{e} + multiset(es)
  {
    assert es == es[..i] + es[i..];
  }

  /** The essences of an insertion are an insertion into the essences. */
  lemma InsertEssences(r: Rules, scope: Scope, n: Node, nodes: seq<Node>) returns (i: nat)
    ensures i <= |nodes|
    ensures var es := Essences(r, scope, nodes);
            Essences(r, scope, InsertByDisplay(r, n, nodes)) == es[..i] + [EssenceOf(r, scope, n)] + es[i..]
  {
    i := InsertedAt(r, n, nodes);
  }

  lemma {:induction false} SortLaws(r: Rules, scope: Scope, nodes: seq<Node>)
    ensures multiset(Essences(r, scope, SortByDisplay(r, nodes))) == multiset(Essences(r, scope, nodes))
    ensures KeysDiffer(Essences(r, scope, nodes)) ==> KeysDiffer(Essences(r, scope, SortByDisplay(r, nodes)))
  {
    if nodes != [] {
      SortLaws(r, scope, nodes[1..]);
      var i := InsertEssences(r, scope, nodes[0], SortByDisplay(r, nodes[1..]));
      var e := EssenceOf(r, scope, nodes[0]);
      EssencesHead(r, scope, nodes);
      SortStep(e, Essences(r, scope, nodes[1..]), Essences(r, scope, SortByDisplay(r, nodes[1..])), i);
    }
  }

  lemma EssencesHead(r: Rules, scope: Scope, nodes: seq<Node>)
    requires nodes != []
    ensures Essences(r, scope, nodes) == [EssenceOf(r, scope, nodes[0])] + Essences(r, scope, nodes[1..])
  {
    MappedHead(Maker(r, scope), nodes);
  }

  lemma EssencesLast(r: Rules, scope: Scope, nodes: seq<Node>, n: Node)
    ensures Essences(r, scope, nodes + [n]) == Essences(r, scope, nodes) + [EssenceOf(r, scope, n)]
  {
  }

  lemma SortStep(e: Essence, tail: seq<Essence>, sorted: seq<Essence>, i: nat)
    requires i <= |sorted| && multiset(sorted) == multiset(tail) && (KeysDiffer(tail) ==> KeysDiffer(sorted))
    ensures var out := sorted[..i] + [e] + sorted[i..];
            multiset(out) == multiset([e] + tail) && (KeysDiffer([e] + tail) ==> KeysDiffer(out))
  {
    InsertMultiset(sorted, e, i);
    if KeysDiffer([e] + tail) {
      DistinctTail(e, tail, sorted);
    }
  }

  lemma DistinctTail(e: Essence, tail: seq<Essence>, sorted: seq<Essence>)
    requires KeysDiffer([e] + tail) && multiset(sorted) == multiset(tail)
    ensures KeysDiffer(tail) && forall k | 0 <= k < |sorted| :: sorted[k].key != e.key
  {
    var all := [e] + tail;
    assert forall k | 0 <= k < |tail| :: all[k + 1] == tail[k];
    forall k | 0 <= k < |sorted| ensures sorted[k].key != e.key {
      assert sorted[k] in multiset(sorted);
      assert sorted[k] in multiset(tail);
      var j :| 0 <= j < |tail| && tail[j] == sorted[k];
      assert all[j + 1] == sorted[k] && all[0] == e;
    }
  }

  lemma DecoratedLaws(r: Rules, cfg: Settings, nodes: seq<Node>)
    ensures var shown, es := Essences(r, cfg.scope, Decorated(r, cfg, nodes)), Essences(r, cfg.scope, nodes);
            multiset(shown) == multiset(es) && (KeysDiffer(es) ==> KeysDiffer(shown))
  {
    var names := seq(|nodes|, i requires 0 <= i < |nodes| => cfg.display(nodes[i]));
    RenamedEssences(r, cfg.scope, nodes, names);
    SortLaws(r, cfg.scope, Renamed(nodes, names));
    assert Renamed(nodes, names) == seq(|nodes|, i requires 0 <= i < |nodes| => nodes[i].(name := cfg.display(nodes[i])));
  }

  lemma PresentedLaws(r: Rules, cfg: Settings, nodes: seq<Node>)
    ensures var shown, es := Essences(r, cfg.scope, Presented(r, cfg, nodes)), Essences(r, cfg.scope, nodes);
            multiset(shown) == multiset(es) && (KeysDiffer(es) ==> KeysDiffer(shown))
    ensures |Presented(r, cfg, nodes)| == |nodes|
  {
    var d := Decorated(r, cfg, nodes);
    DecoratedLaws(r, cfg, nodes);
    RenamedEssences(r, cfg.scope, d, ProxyNames.Unique(cfg.suffix, BaseNames(r, d)));
    SameSize(Essences(r, cfg.scope, d), Essences(r, cfg.scope, nodes));
  }

  lemma SameSize(a: seq<Essence>, b: seq<Essence>)
    requires multiset(a) == multiset(b)
    ensures |a| == |b|
  {
    assert |multiset(a)| == |a| && |multiset(b)| == |b|;
  }

  // ---- Accounting ----

  function Where(es: seq<Essence>): seq<nat> {
    seq(|es|, i requires 0 <= i < |es| => es[i].position)
  }

  lemma {:induction false} WherePermuted(a: seq<Essence>, b: seq<Essence>)
    requires multiset(a) == multiset(b)
    ensures multiset(Where(a)) == multiset(Where(b))
  {
    SameSize(a, b);
    if a != [] {
      assert a[0] in multiset(b);
      var i :| 0 <= i < |b| && b[i] == a[0];
      var rest := Without(b, i);
      WithoutFirst(a);
      Cancel(multiset(a[1..]), multiset(rest), a[0]);
      WherePermuted(a[1..], rest);
    }
  }

  lemma Cancel(x: multiset<Essence>, y: multiset<Essence>, e: Essence)
    requires x + multiset{e} == y + multiset{e}
    ensures x == y
  {
    assert x == (x + multiset{e}) - multiset{e} && y == (y + multiset{e}) - multiset{e};
  }

  lemma WithoutFirst(a: seq<Essence>)
    requires a != []
    ensures multiset(a) == multiset(a[1..]) + multiset{a[0]}
    ensures multiset(Where(a)) == multiset(Where(a[1..])) + multiset{a[0].position}
  {
    assert a == [a[0]] + a[1..] && Where(a) == [a[0].position] + Where(a[1..]);
  }

  lemma Without(b: seq<Essence>, i: nat) returns (rest: seq<Essence>)
    requires i < |b|
    ensures |rest| == |b| - 1 && multiset(b) == multiset(rest) + multiset{b[i]}
    ensures multiset(Where(b)) == multiset(Where(rest)) + multiset{b[i].position}
  {
    rest := b[..i] + b[i + 1..];
    assert b == b[..i] + [b[i]] + b[i + 1..];
    assert Where(b) == Where(b[..i]) + [b[i].position] + Where(b[i + 1..]) && Where(rest) == Where(b[..i]) + Where(b[i + 1..]);
  }

  lemma PresentedPositions(r: Rules, cfg: Settings, nodes: seq<Node>)
    ensures multiset(Positions(Presented(r, cfg, nodes))) == multiset(Positions(nodes))
  {
    PresentedLaws(r, cfg, nodes);
    var shown := Presented(r, cfg, nodes);
    WherePermuted(Essences(r, cfg.scope, shown), Essences(r, cfg.scope, nodes));
    assert Where(Essences(r, cfg.scope, shown)) == Positions(shown);
    assert Where(Essences(r, cfg.scope, nodes)) == Positions(nodes);
  }

  /** Three stages in a row, of which the second works on overridden nodes. */
  lemma ThreeStages(r: Rules, a: seq<Node>, over: seq<Node>, f: Node -> Option<Reason>, g: Node -> Option<Reason>, h: Node -> Option<Reason>)
    requires Positions(over) == Positions(Kept(a, f))
    ensures var survivors, audit := Kept(Kept(over, g), h), Rejected(r, a, f) + Rejected(r, over, g) + Rejected(r, Kept(over, g), h);
            Accounted(survivors, audit) == Accounted(a, []) && |survivors| + |audit| == |a|
  {
    var one, two := Kept(a, f), Kept(over, g);
    StageConserves(r, a, f);
    StageConserves(r, over, g);
    StageConserves(r, two, h);
    assert |over| == |Positions(over)| == |Positions(one)| == |one|;
    Chain(one, Rejected(r, a, f), over, two, Rejected(r, over, g));
    Chain(two, Rejected(r, a, f) + Rejected(r, over, g), two, Kept(two, h), Rejected(r, two, h));
  }

  lemma Chain(before: seq<Node>, x: seq<Entry>, same: seq<Node>, after: seq<Node>, y: seq<Entry>)
    requires Positions(before) == Positions(same) && Accounted(after, y) == Accounted(same, [])
    ensures Accounted(after, x + y) == Accounted(before, x)
  {
    LoggedConcat(x, y);
    AccountedAlone(same);
    assert multiset(Logged(x + y)) == multiset(Logged(x)) + multiset(Logged(y));
  }

  lemma AccountedAlone(nodes: seq<Node>)
    ensures Accounted(nodes, []) == multiset(Positions(nodes))
  {
  }

  lemma StagesConserve(r: Rules, cfg: Settings, s: NodeDeletion.State, overrides: map<NodeId, Override>, candidates: seq<Node>)
    ensures var survivors, audit := Survivors(r, cfg, s, overrides, candidates), StageAudit(r, cfg, s, overrides, candidates);
            Accounted(survivors, audit) == Accounted(candidates, []) && |survivors| + |audit| == |candidates|
  {
    var one := Kept(candidates, FilterOf(cfg));
    ThreeStages(r, candidates, OverriddenAll(r, cfg, overrides, one), FilterOf(cfg), RecheckOf(cfg), StateOf(s.disabled, Gone(r, s, candidates)));
  }

  lemma DedupeConserves(r: Rules, scope: Scope, nodes: seq<Node>)
    ensures var m := Deduped(r, scope, nodes);
            Accounted(m.out, m.log) == Accounted(nodes, []) && |m.out| + |m.log| == |nodes|
  {
    if scope != Unscoped {
      MergeConserves(r, scope, nodes);
    }
  }

  /** Every candidate ends up exactly once, in the final list or in the audit, and the three counts agree. */
  lemma EveryCandidateIsAccountedFor(r: Rules, cfg: Settings, s: NodeDeletion.State, overrides: map<NodeId, Override>, listed: seq<Node>)
    ensures var o := Built(r, cfg, s, overrides, listed);
            && multiset(Positions(o.nodes)) + multiset(Logged(o.audit)) == multiset(seq(|listed|, i => i))
            && o.rawCount == o.finalCount + o.excludedCount
  {
    var candidates := Candidates(r, cfg, listed);
    var survivors, audit := Survivors(r, cfg, s, overrides, candidates), StageAudit(r, cfg, s, overrides, candidates);
    StagesConserve(r, cfg, s, overrides, candidates);
    DedupeConserves(r, cfg.scope, survivors);
    var merged := Deduped(r, cfg.scope, survivors);
    PresentedPositions(r, cfg, merged.out);
    PresentedLaws(r, cfg, merged.out);
    AllAccounted(candidates, survivors, merged.out, Presented(r, cfg, merged.out), audit, merged.log);
    CandidatePositions(r, cfg, listed);
  }

  lemma CandidatePositions(r: Rules, cfg: Settings, listed: seq<Node>)
    ensures Positions(Candidates(r, cfg, listed)) == seq(|listed|, i => i)
  {
  }

  lemma AllAccounted(candidates: seq<Node>, survivors: seq<Node>, out: seq<Node>, shown: seq<Node>, audit: seq<Entry>, log: seq<Entry>)
    requires Accounted(survivors, audit) == Accounted(candidates, []) && |survivors| + |audit| == |candidates|
    requires Accounted(out, log) == Accounted(survivors, []) && |out| + |log| == |survivors|
    requires multiset(Positions(shown)) == multiset(Positions(out)) && |shown| == |out|
    ensures multiset(Positions(shown)) + multiset(Logged(audit + log)) == multiset(Positions(candidates))
    ensures |candidates| == |shown| + |audit + log|
  {
    LoggedConcat(audit, log);
    assert multiset(Logged(audit + log)) == multiset(Logged(audit)) + multiset(Logged(log));
    AccountedAlone(candidates);
    AccountedAlone(survivors);
  }

  // ---- One candidate's fate ----

  /** What happens to one candidate, in one pass: a reason, or none if it survives. */
  function Fate(r: Rules, cfg: Settings, s: NodeDeletion.State, overrides: map<NodeId, Override>, gone: set<NodeId>, c: Node): Option<Reason> {
    var m := Overridden(r, cfg, overrides, c);
    if FilterOf(cfg)(c).Some? then FilterOf(cfg)(c)
    else if RecheckOf(cfg)(m).Some? then RecheckOf(cfg)(m)
    else StateOf(s.disabled, gone)(m)
  }

  lemma {:induction false} InKept(nodes: seq<Node>, test: Node -> Option<Reason>)
    ensures forall n :: n in Kept(nodes, test) <==> n in nodes && test(n).None?
  {
    if nodes != [] {
      InKept(nodes[..|nodes| - 1], test);
      assert nodes == nodes[..|nodes| - 1] + [nodes[|nodes| - 1]];
    }
  }

  lemma {:induction false} InRejected(r: Rules, nodes: seq<Node>, test: Node -> Option<Reason>, e: Entry)
    ensures e in Rejected(r, nodes, test) <==> exists n :: n in nodes && test(n).Some? && e == EntryOf(r, n, test(n).value)
  {
    if nodes != [] {
      InRejected(r, nodes[..|nodes| - 1], test, e);
      assert nodes == nodes[..|nodes| - 1] + [nodes[|nodes| - 1]];
    }
  }

  lemma InOverridden(r: Rules, cfg: Settings, overrides: map<NodeId, Override>, nodes: seq<Node>)
    ensures forall n | n in nodes :: Overridden(r, cfg, overrides, n) in OverriddenAll(r, cfg, overrides, nodes)
    ensures forall m | m in OverriddenAll(r, cfg, overrides, nodes) :: exists n :: n in nodes && Overridden(r, cfg, overrides, n) == m
  {
    var out := OverriddenAll(r, cfg, overrides, nodes);
    forall n | n in nodes ensures Overridden(r, cfg, overrides, n) in out {
      var i :| 0 <= i < |nodes| && nodes[i] == n;
      assert out[i] in out;
    }
    forall m | m in out ensures exists n :: n in nodes && Overridden(r, cfg, overrides, n) == m {
      var i :| 0 <= i < |out| && out[i] == m;
      assert nodes[i] in nodes;
    }
  }

  /** The survivors of the staged pipeline are exactly the candidates without a fate. */
  lemma SurvivorsAreExact(r: Rules, cfg: Settings, s: NodeDeletion.State, overrides: map<NodeId, Override>, candidates: seq<Node>, m: Node)
    ensures m in Survivors(r, cfg, s, overrides, candidates)
            <==> exists c :: c in candidates && Fate(r, cfg, s, overrides, Gone(r, s, candidates), c).None? && m == Overridden(r, cfg, overrides, c)
  {
    var one := Kept(candidates, FilterOf(cfg));
    var over := OverriddenAll(r, cfg, overrides, one);
    InKept(candidates, FilterOf(cfg));
    InOverridden(r, cfg, overrides, one);
    InKept(over, RecheckOf(cfg));
    InKept(Kept(over, RecheckOf(cfg)), StateOf(s.disabled, Gone(r, s, candidates)));
  }

  /** The audit entry a candidate leaves: filters see it before overrides, later stages after. */
  function Excuse(r: Rules, cfg: Settings, s: NodeDeletion.State, overrides: map<NodeId, Override>, gone: set<NodeId>, c: Node): Entry
    requires Fate(r, cfg, s, overrides, gone, c).Some?
  {
    EntryOf(r, if FilterOf(cfg)(c).Some? then c else Overridden(r, cfg, overrides, c), Fate(r, cfg, s, overrides, gone, c).value)
  }

  /** The audit of the stages holds exactly the candidates with a fate, each with its own reason. */
  lemma AuditIsExact(r: Rules, cfg: Settings, s: NodeDeletion.State, overrides: map<NodeId, Override>, candidates: seq<Node>, e: Entry)
    ensures var gone := Gone(r, s, candidates);
            e in StageAudit(r, cfg, s, overrides, candidates)
            <==> exists c :: c in candidates && Fate(r, cfg, s, overrides, gone, c).Some? && e == Excuse(r, cfg, s, overrides, gone, c)
  {
    AuditOfStages(r, cfg, overrides, candidates, FilterOf(cfg), RecheckOf(cfg), StateOf(s.disabled, Gone(r, s, candidates)), e);
  }

  // ---- The fate by the settings alone ----

  /** What can be said against a candidate, given the node that overrides make of it. */
  ghost predicate Applies(cfg: Settings, disabled: set<NodeId>, gone: set<NodeId>, c: Node, m: Node, why: Reason) {
    match why
    case InfoNode => cfg.info(c) && !cfg.showInfo
    case NotIncluded => !cfg.included(c.name)
    case ExcludedByKeyword => cfg.excluded(c.name)
    case InvalidNode => cfg.filterIllegal && !(cfg.renderable(c) && cfg.renderable(m))
    case DisabledNode => c.id in disabled
    case DeletedNode => c.id in gone
    case Duplicate => false
  }

  function Rank(why: Reason): nat {
    match why
    case InfoNode => 0
    case NotIncluded => 1
    case ExcludedByKeyword => 2
    case InvalidNode => 3
    case DisabledNode => 4
    case DeletedNode => 5
    case Duplicate => 6
  }

  ghost predicate AppliesFirst(cfg: Settings, disabled: set<NodeId>, gone: set<NodeId>, c: Node, m: Node, why: Reason) {
    Applies(cfg, disabled, gone, c, m, why) && forall other | Rank(other) < Rank(why) :: !Applies(cfg, disabled, gone, c, m, other)
  }

  lemma OverriddenKeepsId(r: Rules, cfg: Settings, overrides: map<NodeId, Override>, c: Node)
    ensures var m := Overridden(r, cfg, overrides, c); m.id == c.id && m.position == c.position
  {
  }

  lemma FirstReason(cfg: Settings, disabled: set<NodeId>, gone: set<NodeId>, c: Node, m: Node, fate: Option<Reason>, why: Reason)
    requires m.id == c.id
    requires fate == if FilterOf(cfg)(c).Some? then FilterOf(cfg)(c) else if RecheckOf(cfg)(m).Some? then RecheckOf(cfg)(m) else StateOf(disabled, gone)(m)
    ensures fate == Some(why) <==> AppliesFirst(cfg, disabled, gone, c, m, why)
  {
    forall other ensures Applies(cfg, disabled, gone, c, m, other) ==> fate.Some? && Rank(fate.value) <= Rank(other) {
    }
  }

  lemma FateIsFirst(r: Rules, cfg: Settings, s: NodeDeletion.State, overrides: map<NodeId, Override>, gone: set<NodeId>, c: Node, why: Reason)
    ensures var m := Overridden(r, cfg, overrides, c);
            Fate(r, cfg, s, overrides, gone, c) == Some(why) <==> AppliesFirst(cfg, s.disabled, gone, c, m, why)
  {
    OverriddenKeepsId(r, cfg, overrides, c);
    FirstReason(cfg, s.disabled, gone, c, Overridden(r, cfg, overrides, c), Fate(r, cfg, s, overrides, gone, c), why);
  }

  lemma FirstOfAny(cfg: Settings, disabled: set<NodeId>, gone: set<NodeId>, c: Node, m: Node, why: Reason)
    requires Applies(cfg, disabled, gone, c, m, why)
    ensures exists first :: AppliesFirst(cfg, disabled, gone, c, m, first)
    decreases Rank(why)
  {
    if other :| Rank(other) < Rank(why) && Applies(cfg, disabled, gone, c, m, other) {
      FirstOfAny(cfg, disabled, gone, c, m, other);
    } else {
      assert AppliesFirst(cfg, disabled, gone, c, m, why);
    }
  }

  lemma NoFateIff(r: Rules, cfg: Settings, s: NodeDeletion.State, overrides: map<NodeId, Override>, gone: set<NodeId>, c: Node)
    ensures var m := Overridden(r, cfg, overrides, c);
            Fate(r, cfg, s, overrides, gone, c).None? <==> forall why :: !Applies(cfg, s.disabled, gone, c, m, why)
  {
    var m, fate := Overridden(r, cfg, overrides, c), Fate(r, cfg, s, overrides, gone, c);
    if fate.Some? {
      FateIsFirst(r, cfg, s, overrides, gone, c, fate.value);
    }
    if why :| Applies(cfg, s.disabled, gone, c, m, why) {
      FirstOfAny(cfg, s.disabled, gone, c, m, why);
      var first :| AppliesFirst(cfg, s.disabled, gone, c, m, first);
      FateIsFirst(r, cfg, s, overrides, gone, c, first);
    }
  }

  /** A candidate survives, with its overrides, exactly if nothing can be said against it. */
  lemma CandidateSurvivesIff(r: Rules, cfg: Settings, s: NodeDeletion.State, overrides: map<NodeId, Override>, candidates: seq<Node>, m: Node)
    ensures m in Survivors(r, cfg, s, overrides, candidates)
            <==> exists c :: c in candidates && m == Overridden(r, cfg, overrides, c)
                   && forall why :: !Applies(cfg, s.disabled, Gone(r, s, candidates), c, m, why)
  {
    SurvivorsAreExact(r, cfg, s, overrides, candidates, m);
    forall c | c in candidates
      ensures Fate(r, cfg, s, overrides, Gone(r, s, candidates), c).None?
              <==> forall why :: !Applies(cfg, s.disabled, Gone(r, s, candidates), c, Overridden(r, cfg, overrides, c), why)
    {
      NoFateIff(r, cfg, s, overrides, Gone(r, s, candidates), c);
    }
  }

  /** An entry about a candidate: as it was for the filters, and with its overrides for what is found later. */
  ghost predicate Reports(r: Rules, cfg: Settings, c: Node, m: Node, e: Entry) {
    var shown := if Rank(e.reason) < 3 || (e.reason == InvalidNode && !cfg.renderable(c)) then c else m;
    e.id == c.id && e.position == c.position && e.name == r.trim(shown.name) && e.source == shown.source
  }

  /** The stages log exactly the candidates something can be said against, each with the first such thing. */
  lemma AuditSaysWhy(r: Rules, cfg: Settings, s: NodeDeletion.State, overrides: map<NodeId, Override>, candidates: seq<Node>, e: Entry)
    ensures e in StageAudit(r, cfg, s, overrides, candidates)
            <==> exists c :: c in candidates && AppliesFirst(cfg, s.disabled, Gone(r, s, candidates), c, Overridden(r, cfg, overrides, c), e.reason)
                   && Reports(r, cfg, c, Overridden(r, cfg, overrides, c), e)
  {
    AuditIsExact(r, cfg, s, overrides, candidates, e);
    var gone := Gone(r, s, candidates);
    forall c | c in candidates
      ensures Fate(r, cfg, s, overrides, gone, c).Some? && e == Excuse(r, cfg, s, overrides, gone, c)
              <==> AppliesFirst(cfg, s.disabled, gone, c, Overridden(r, cfg, overrides, c), e.reason)
                   && Reports(r, cfg, c, Overridden(r, cfg, overrides, c), e)
    {
      ExcusedIff(r, cfg, s, overrides, gone, c, e);
    }
  }

  lemma ExcusedIff(r: Rules, cfg: Settings, s: NodeDeletion.State, overrides: map<NodeId, Override>, gone: set<NodeId>, c: Node, e: Entry)
    ensures var m := Overridden(r, cfg, overrides, c);
            Fate(r, cfg, s, overrides, gone, c).Some? && e == Excuse(r, cfg, s, overrides, gone, c)
            <==> AppliesFirst(cfg, s.disabled, gone, c, m, e.reason) && Reports(r, cfg, c, m, e)
  {
    FateIsFirst(r, cfg, s, overrides, gone, c, e.reason);
    if Fate(r, cfg, s, overrides, gone, c) == Some(e.reason) {
      ExcuseReports(r, cfg, s, overrides, gone, c, e);
    }
  }

  /** Which of the two nodes the reason was found on. */
  lemma FilterRanks(cfg: Settings, disabled: set<NodeId>, gone: set<NodeId>, c: Node, m: Node, why: Reason)
    requires Some(why) == if FilterOf(cfg)(c).Some? then FilterOf(cfg)(c) else if RecheckOf(cfg)(m).Some? then RecheckOf(cfg)(m) else StateOf(disabled, gone)(m)
    ensures FilterOf(cfg)(c).Some? <==> Rank(why) < 3 || (why == InvalidNode && !cfg.renderable(c))
  {
  }

  lemma ExcuseReports(r: Rules, cfg: Settings, s: NodeDeletion.State, overrides: map<NodeId, Override>, gone: set<NodeId>, c: Node, e: Entry)
    requires Fate(r, cfg, s, overrides, gone, c) == Some(e.reason)
    ensures e == Excuse(r, cfg, s, overrides, gone, c) <==> Reports(r, cfg, c, Overridden(r, cfg, overrides, c), e)
  {
    OverriddenKeepsId(r, cfg, overrides, c);
    var m := Overridden(r, cfg, overrides, c);
    FilterRanks(cfg, s.disabled, gone, c, m, e.reason);
  }

  /** What leaves at the first stage, and what the later stages see. */
  ghost predicate LeavesFirst(r: Rules, f: Node -> Option<Reason>, c: Node, e: Entry) {
    f(c).Some? && e == EntryOf(r, c, f(c).value)
  }

  ghost predicate LeavesSecond(r: Rules, cfg: Settings, overrides: map<NodeId, Override>,
                               f: Node -> Option<Reason>, g: Node -> Option<Reason>, c: Node, e: Entry) {
    f(c).None? && LeavesFirst(r, g, Overridden(r, cfg, overrides, c), e)
  }

  ghost predicate LeavesThird(r: Rules, cfg: Settings, overrides: map<NodeId, Override>,
                              f: Node -> Option<Reason>, g: Node -> Option<Reason>, h: Node -> Option<Reason>, c: Node, e: Entry) {
    f(c).None? && g(Overridden(r, cfg, overrides, c)).None? && LeavesFirst(r, h, Overridden(r, cfg, overrides, c), e)
  }

  lemma SecondStage(r: Rules, cfg: Settings, overrides: map<NodeId, Override>, a: seq<Node>,
                    f: Node -> Option<Reason>, g: Node -> Option<Reason>, e: Entry)
    ensures e in Rejected(r, OverriddenAll(r, cfg, overrides, Kept(a, f)), g)
            <==> exists c :: c in a && LeavesSecond(r, cfg, overrides, f, g, c, e)
  {
    InKept(a, f);
    InOverridden(r, cfg, overrides, Kept(a, f));
    InRejected(r, OverriddenAll(r, cfg, overrides, Kept(a, f)), g, e);
  }

  lemma ThirdStage(r: Rules, cfg: Settings, overrides: map<NodeId, Override>, a: seq<Node>,
                   f: Node -> Option<Reason>, g: Node -> Option<Reason>, h: Node -> Option<Reason>, e: Entry)
    ensures e in Rejected(r, Kept(OverriddenAll(r, cfg, overrides, Kept(a, f)), g), h)
            <==> exists c :: c in a && LeavesThird(r, cfg, overrides, f, g, h, c, e)
  {
    var over := OverriddenAll(r, cfg, overrides, Kept(a, f));
    InKept(a, f);
    InKept(over, g);
    InOverridden(r, cfg, overrides, Kept(a, f));
    InRejected(r, Kept(over, g), h, e);
  }

  lemma AuditOfStages(r: Rules, cfg: Settings, overrides: map<NodeId, Override>, a: seq<Node>,
                      f: Node -> Option<Reason>, g: Node -> Option<Reason>, h: Node -> Option<Reason>, e: Entry)
    ensures var over := OverriddenAll(r, cfg, overrides, Kept(a, f));
            e in Rejected(r, a, f) + Rejected(r, over, g) + Rejected(r, Kept(over, g), h)
            <==> exists c :: c in a && Leaves(r, cfg, overrides, f, g, h, c, e)
  {
    InRejected(r, a, f, e);
    SecondStage(r, cfg, overrides, a, f, g, e);
    ThirdStage(r, cfg, overrides, a, f, g, h, e);
    assert forall c :: Leaves(r, cfg, overrides, f, g, h, c, e) <==>
      LeavesFirst(r, f, c, e) || LeavesSecond(r, cfg, overrides, f, g, c, e) || LeavesThird(r, cfg, overrides, f, g, h, c, e);
  }

  ghost predicate Leaves(r: Rules, cfg: Settings, overrides: map<NodeId, Override>,
                         f: Node -> Option<Reason>, g: Node -> Option<Reason>, h: Node -> Option<Reason>, c: Node, e: Entry) {
    var m := Overridden(r, cfg, overrides, c);
    if f(c).Some? then e == EntryOf(r, c, f(c).value)
    else if g(m).Some? then e == EntryOf(r, m, g(m).value)
    else h(m).Some? && e == EntryOf(r, m, h(m).value)
  }

  // ---- Deduplication loses copies only ----

  ghost predicate Has(out: seq<Essence>, key: NodeId, marks: set<Mark>) {
    exists i :: 0 <= i < |out| && out[i].key == key && marks <= out[i].marks
  }

  ghost predicate Known(input: seq<Essence>, key: NodeId, id: NodeId) {
    exists i :: 0 <= i < |input| && input[i].key == key && input[i].id == id
  }

  ghost predicate Carries(input: seq<Essence>, key: NodeId, x: Mark) {
    exists i :: 0 <= i < |input| && input[i].key == key && x in input[i].marks
  }

  lemma StillKnown(input: seq<Essence>, e: Essence)
    ensures forall key, id :: Known(input, key, id) ==> Known(input + [e], key, id)
    ensures forall key, x :: Carries(input, key, x) ==> Carries(input + [e], key, x)
    ensures Known(input + [e], e.key, e.id) && forall x | x in e.marks :: Carries(input + [e], e.key, x)
  {
    var all := input + [e];
    assert all[|input|] == e && forall i | 0 <= i < |input| :: all[i] == input[i];
  }

  ghost predicate Covered(input: seq<Essence>, out: seq<Essence>) {
    forall m | m in input :: Has(out, m.key, m.marks)
  }

  ghost predicate Grounded(input: seq<Essence>, out: seq<Essence>) {
    forall n | n in out :: Known(input, n.key, n.id) && forall x | x in n.marks :: Carries(input, n.key, x)
  }

  /** Keys stay distinct; each input has its key and its marks in the output; each output has the key and
      the id of some input, and only marks of inputs with its key. */
  ghost predicate Faithful(input: seq<Essence>, out: seq<Essence>) {
    KeysDiffer(out) && Covered(input, out) && Grounded(input, out)
  }

  lemma CoveredStep(input: seq<Essence>, out: seq<Essence>, next: seq<Essence>, e: Essence)
    requires Covered(input, out) && Has(next, e.key, e.marks)
    requires |out| <= |next| && forall i | 0 <= i < |out| :: next[i].key == out[i].key && out[i].marks <= next[i].marks
    ensures Covered(input + [e], next)
  {
  }

  lemma GroundedStep(input: seq<Essence>, out: seq<Essence>, next: seq<Essence>, e: Essence, n: Essence)
    requires Grounded(input, out) && forall x | x in next :: x in out || x == n
    requires Known(input + [e], n.key, n.id) && forall x | x in n.marks :: Carries(input + [e], n.key, x)
    ensures Grounded(input + [e], next)
  {
    StillKnown(input, e);
  }

  lemma FaithfulAppend(input: seq<Essence>, out: seq<Essence>, e: Essence)
    requires Faithful(input, out) && forall i | 0 <= i < |out| :: out[i].key != e.key
    ensures Faithful(input + [e], out + [e])
  {
    assert (out + [e])[|out|] == e;
    CoveredStep(input, out, out + [e], e);
    StillKnown(input, e);
    GroundedStep(input, out, out + [e], e, e);
  }

  lemma FaithfulMerge(input: seq<Essence>, out: seq<Essence>, e: Essence, i: nat)
    requires Faithful(input, out) && i < |out| && out[i].key == e.key
    ensures Faithful(input + [e], out[i := out[i].(marks := out[i].marks + e.marks)])
  {
    var merged := out[i].(marks := out[i].marks + e.marks);
    var next := out[i := merged];
    assert next[i] == merged && out[i] in out;
    CoveredStep(input, out, next, e);
    StillKnown(input, e);
    GroundedStep(input, out, next, e, merged);
  }

  function NormalSet(r: Rules, ss: seq<Source>): set<Source> {
    (set s | s in ss :: NormalizeSource(r, s)) - {NO_SOURCE}
  }

  lemma ViewIsNormalized(r: Rules, n: Node, s: Source)
    ensures s in View(r, n) <==> s in NormalSet(r, n.sources + [n.source])
  {
    var all := n.sources + [n.source];
    var each := NormalizeEach(r, all);
    MergedElements(each);
    if s in each {
      var i :| 0 <= i < |each| && each[i] == s;
      assert all[i] in all;
    }
    if x :| x in all && NormalizeSource(r, x) == s {
      var i :| 0 <= i < |all| && all[i] == x;
      assert each[i] in each;
    }
  }

  lemma NormalInView(r: Rules, n: Node, s: Source)
    requires Sound(r) && s in View(r, n)
    ensures NormalizeSource(r, s) == s && s != NO_SOURCE
  {
    ViewIsNormalized(r, n, s);
    var x :| x in n.sources + [n.source] && s == NormalizeSource(r, x);
    SourceNormalOnce(r, x);
  }

  /** Merging unites the sources. */
  lemma MergeViews(r: Rules, e: Node, d: Node, s: Source)
    requires Sound(r)
    ensures s in View(r, Merge(r, e, d)) <==> s in View(r, e) || s in View(r, d)
  {
    var both := View(r, e) + View(r, d);
    var sources := MergeSources(both);
    ViewIsNormalized(r, Merge(r, e, d), s);
    assert Merge(r, e, d).sources == sources && Merge(r, e, d).source == e.source;
    MergedElements(both);
    if s in both {
      if s in View(r, e) {
        NormalInView(r, e, s);
      } else {
        NormalInView(r, d, s);
      }
      assert s in sources + [e.source];
    }
    if x :| x in sources + [e.source] && NormalizeSource(r, x) == s && s != NO_SOURCE {
      if x in sources {
        if x in View(r, e) {
          NormalInView(r, e, x);
        } else {
          NormalInView(r, d, x);
        }
      } else {
        assert e.source in e.sources + [e.source];
        ViewIsNormalized(r, e, s);
      }
    }
  }

  /** And so are tags and warnings. */
  lemma TrimmedUnion(r: Rules, a: set<string>, b: set<string>)
    requires Sound(r)
    ensures TrimAll(r, TrimAll(r, a + b)) == TrimAll(r, a) + TrimAll(r, b)
  {
    forall t | t in TrimAll(r, a + b) ensures r.trim(t) == t && t != "" {
    }
    forall t | t in TrimAll(r, a) + TrimAll(r, b) ensures t in TrimAll(r, TrimAll(r, a + b)) {
      assert t in TrimAll(r, a + b);
      assert r.trim(t) == t;
    }
  }

  lemma MergeMarks(r: Rules, e: Node, d: Node)
    requires Sound(r)
    ensures Marks(r, Merge(r, e, d)) == Marks(r, e) + Marks(r, d)
  {
    var m := Merge(r, e, d);
    forall s ensures s in View(r, m) <==> s in View(r, e) || s in View(r, d) {
      MergeViews(r, e, d, s);
    }
    MarksUnited(r, m, e, d);
  }

  lemma MarksUnited(r: Rules, m: Node, e: Node, d: Node)
    requires forall s :: s in View(r, m) <==> s in View(r, e) || s in View(r, d)
    requires Sound(r) && m.tags == TrimAll(r, e.tags + d.tags) && m.warnings == TrimAll(r, e.warnings + d.warnings)
    ensures Marks(r, m) == Marks(r, e) + Marks(r, d)
  {
    MarksTrimmed(r, m);
    MarksTrimmed(r, e);
    MarksTrimmed(r, d);
    TrimmedUnion(r, e.tags, d.tags);
    TrimmedUnion(r, e.warnings, d.warnings);
    MarksOfUnion(View(r, m), View(r, e), View(r, d), TrimAll(r, m.tags), TrimAll(r, e.tags), TrimAll(r, d.tags),
                 TrimAll(r, m.warnings), TrimAll(r, e.warnings), TrimAll(r, d.warnings));
  }

  lemma MarksOfUnion(s: seq<Source>, s1: seq<Source>, s2: seq<Source>, t: set<string>, t1: set<string>, t2: set<string>,
                     w: set<string>, w1: set<string>, w2: set<string>)
    requires (forall x :: x in s <==> x in s1 || x in s2) && t == t1 + t2 && w == w1 + w2
    ensures MarkSet(s, t, w) == MarkSet(s1, t1, w1) + MarkSet(s2, t2, w2)
  {
  }

  /** Merging keeps connection, id and position. */
  lemma MergeEssence(r: Rules, scope: Scope, e: Node, d: Node)
    requires Sound(r)
    ensures EssenceOf(r, scope, Merge(r, e, d))
            == EssenceOf(r, scope, e).(marks := EssenceOf(r, scope, e).marks + EssenceOf(r, scope, d).marks)
  {
    MergeMarks(r, e, d);
    MergeKeepsCore(r, scope, e, d);
  }

  lemma MergeKeepsCore(r: Rules, scope: Scope, e: Node, d: Node)
    ensures var m := Merge(r, e, d); Key(r, scope, m) == Key(r, scope, e) && m.id == e.id && m.position == e.position
  {
  }

  lemma MergeOneMore(r: Rules, scope: Scope, init: seq<Node>, n: Node)
    requires Sound(r) && Faithful(Essences(r, scope, init), Essences(r, scope, MergeAll(r, scope, init).out))
    ensures Faithful(Essences(r, scope, init + [n]), Essences(r, scope, MergeStep(r, scope, MergeAll(r, scope, init), n).out))
  {
    EssencesLast(r, scope, init, n);
    StepIsFaithful(r, scope, Essences(r, scope, init), MergeAll(r, scope, init), n);
  }

  lemma {:induction false} MergeIsFaithful(r: Rules, scope: Scope, nodes: seq<Node>)
    requires Sound(r)
    ensures Faithful(Essences(r, scope, nodes), Essences(r, scope, MergeAll(r, scope, nodes).out))
  {
    if nodes == [] {
      assert Essences(r, scope, nodes) == [];
    } else {
      var init, n := nodes[..|nodes| - 1], nodes[|nodes| - 1];
      MergeIsFaithful(r, scope, init);
      MergeOneMore(r, scope, init, n);
      assert nodes == init + [n];
    }
  }

  lemma StepIsFaithful(r: Rules, scope: Scope, input: seq<Essence>, m: Merged, n: Node)
    requires Sound(r) && Faithful(input, Essences(r, scope, m.out))
    ensures Faithful(input + [EssenceOf(r, scope, n)], Essences(r, scope, MergeStep(r, scope, m, n).out))
  {
    var i, es, e := Find(r, scope, m.out, Key(r, scope, n)), Essences(r, scope, m.out), EssenceOf(r, scope, n);
    if i < 0 {
      FaithfulAppend(input, es, e);
      EssencesLast(r, scope, m.out, n);
    } else {
      FaithfulMerge(input, es, e, i);
      MergeEssence(r, scope, m.out[i], n);
      ReplaceEssence(r, scope, m.out, i, Merge(r, m.out[i], n));
    }
  }

  lemma ReplaceEssence(r: Rules, scope: Scope, out: seq<Node>, i: nat, n: Node)
    requires i < |out|
    ensures Essences(r, scope, out[i := n]) == Essences(r, scope, out)[i := EssenceOf(r, scope, n)]
  {
  }

  lemma FaithfulPermuted(input: seq<Essence>, out: seq<Essence>, shown: seq<Essence>)
    requires Faithful(input, out) && multiset(out) == multiset(shown) && KeysDiffer(shown)
    ensures Faithful(input, shown)
  {
    forall x ensures x in shown <==> x in out {
      assert x in multiset(shown) <==> x in multiset(out);
    }
    forall m | m in input ensures Has(shown, m.key, m.marks) {
      assert Has(out, m.key, m.marks);
      var i :| 0 <= i < |out| && out[i].key == m.key && m.marks <= out[i].marks;
      assert out[i] in out && out[i] in shown;
      var j :| 0 <= j < |shown| && shown[j] == out[i];
    }
  }

  /** Unless the scope is none, the final connections are pairwise distinct and are exactly those of the
      survivors, and each final node is shown with exactly the sources of the survivors it stands for. So
      deleting one copy of a connection never suppresses another kept copy. */
  lemma FinalConnectionsAreExact(r: Rules, cfg: Settings, s: NodeDeletion.State, overrides: map<NodeId, Override>, listed: seq<Node>)
    requires Sound(r)
    ensures var survivors := Essences(r, cfg.scope, Survivors(r, cfg, s, overrides, Candidates(r, cfg, listed)));
            var final := Essences(r, cfg.scope, Built(r, cfg, s, overrides, listed).nodes);
            if cfg.scope == Unscoped then multiset(final) == multiset(survivors) else Faithful(survivors, final)
  {
    var survivors := Survivors(r, cfg, s, overrides, Candidates(r, cfg, listed));
    var merged := Deduped(r, cfg.scope, survivors);
    PresentedLaws(r, cfg, merged.out);
    if cfg.scope != Unscoped {
      MergeIsFaithful(r, cfg.scope, survivors);
      FaithfulPermuted(Essences(r, cfg.scope, survivors), Essences(r, cfg.scope, merged.out), Essences(r, cfg.scope, Presented(r, cfg, merged.out)));
    }
  }

  /** The node is the same connection and shows all the other one has. */
  ghost predicate StandsFor(r: Rules, scope: Scope, n: Node, m: Node) {
    SameConnection(r, scope, m, n) && Marks(r, m) <= Marks(r, n)
  }

  /** What the node shows, some survivor of the same connection has. */
  ghost predicate ShowsOnly(r: Rules, scope: Scope, survivors: seq<Node>, n: Node) {
    forall x | x in Marks(r, n) :: exists m :: m in survivors && SameConnection(r, scope, m, n) && x in Marks(r, m)
  }

  ghost predicate AllApart(r: Rules, scope: Scope, nodes: seq<Node>) {
    forall i, j | 0 <= i < j < |nodes| :: !SameConnection(r, scope, nodes[i], nodes[j])
  }

  /** Each survivor has a final node that is the same connection, each final node has a survivor with its id that is, and
      two final nodes never are. A final node has the sources, tags and warnings of the survivors that are the same
      connection, and no others. */
  ghost predicate Represent(r: Rules, scope: Scope, survivors: seq<Node>, nodes: seq<Node>) {
    && (forall m | m in survivors :: exists n :: n in nodes && StandsFor(r, scope, n, m))
    && (forall n | n in nodes :: exists m :: m in survivors && m.id == n.id && SameConnection(r, scope, m, n))
    && (forall n | n in nodes :: ShowsOnly(r, scope, survivors, n)) && AllApart(r, scope, nodes)
  }

  /** Unless the scope is none, the final nodes represent the survivors, connection by connection. */
  lemma FinalNodesAreConnections(r: Rules, cfg: Settings, s: NodeDeletion.State, overrides: map<NodeId, Override>, listed: seq<Node>)
    requires Sound(r) && cfg.scope != Unscoped
    ensures Represent(r, cfg.scope, Survivors(r, cfg, s, overrides, Candidates(r, cfg, listed)), Built(r, cfg, s, overrides, listed).nodes)
  {
    FinalConnectionsAreExact(r, cfg, s, overrides, listed);
    FaithfulConnections(r, cfg.scope, Survivors(r, cfg, s, overrides, Candidates(r, cfg, listed)), Built(r, cfg, s, overrides, listed).nodes);
  }

  lemma HolderAt(es: seq<Essence>, final: seq<Essence>, i: nat) returns (j: nat)
    requires Covered(es, final) && i < |es|
    ensures j < |final| && final[j].key == es[i].key && es[i].marks <= final[j].marks
  {
    assert es[i] in es && Has(final, es[i].key, es[i].marks);
    j :| 0 <= j < |final| && final[j].key == es[i].key && es[i].marks <= final[j].marks;
  }

  lemma HasConnection(r: Rules, scope: Scope, survivors: seq<Node>, nodes: seq<Node>, m: Node) returns (n: Node)
    requires scope != Unscoped && Covered(Essences(r, scope, survivors), Essences(r, scope, nodes)) && m in survivors
    ensures n in nodes && StandsFor(r, scope, n, m)
  {
    var es, final := Essences(r, scope, survivors), Essences(r, scope, nodes);
    var i :| 0 <= i < |survivors| && survivors[i] == m;
    var j := HolderAt(es, final, i);
    n := nodes[j];
    assert es[i] == EssenceOf(r, scope, m) && final[j] == EssenceOf(r, scope, n);
    SameIdIff(r, scope, m, 0, n, 0);
  }

  lemma KnownAt(es: seq<Essence>, final: seq<Essence>, j: nat) returns (i: nat)
    requires Grounded(es, final) && j < |final|
    ensures i < |es| && es[i].key == final[j].key && es[i].id == final[j].id
  {
    assert final[j] in final && Known(es, final[j].key, final[j].id);
    i :| 0 <= i < |es| && es[i].key == final[j].key && es[i].id == final[j].id;
  }

  lemma HasSurvivor(r: Rules, scope: Scope, survivors: seq<Node>, nodes: seq<Node>, n: Node) returns (m: Node)
    requires scope != Unscoped && Grounded(Essences(r, scope, survivors), Essences(r, scope, nodes)) && n in nodes
    ensures m in survivors && m.id == n.id && SameConnection(r, scope, m, n)
  {
    var j :| 0 <= j < |nodes| && nodes[j] == n;
    EssenceIds(r, scope, nodes);
    EssenceIds(r, scope, survivors);
    var i := KnownAt(Essences(r, scope, survivors), Essences(r, scope, nodes), j);
    m := survivors[i];
    SameIdIff(r, scope, m, 0, n, 0);
  }

  lemma CarrierAt(es: seq<Essence>, final: seq<Essence>, j: nat, x: Mark) returns (i: nat)
    requires Grounded(es, final) && j < |final| && x in final[j].marks
    ensures i < |es| && es[i].key == final[j].key && x in es[i].marks
  {
    assert final[j] in final && Carries(es, final[j].key, x);
    i :| 0 <= i < |es| && es[i].key == final[j].key && x in es[i].marks;
  }

  lemma HasCarrier(r: Rules, scope: Scope, survivors: seq<Node>, nodes: seq<Node>, n: Node, x: Mark) returns (m: Node)
    requires scope != Unscoped && Grounded(Essences(r, scope, survivors), Essences(r, scope, nodes)) && n in nodes && x in Marks(r, n)
    ensures m in survivors && SameConnection(r, scope, m, n) && x in Marks(r, m)
  {
    var es, final := Essences(r, scope, survivors), Essences(r, scope, nodes);
    var j :| 0 <= j < |nodes| && nodes[j] == n;
    assert final[j] == EssenceOf(r, scope, n);
    var i := CarrierAt(es, final, j, x);
    m := survivors[i];
    assert es[i] == EssenceOf(r, scope, m);
    SameIdIff(r, scope, m, 0, n, 0);
  }

  lemma DifferentConnections(r: Rules, scope: Scope, nodes: seq<Node>, i: nat, j: nat)
    requires scope != Unscoped && KeysDiffer(Essences(r, scope, nodes)) && i < j < |nodes|
    ensures !SameConnection(r, scope, nodes[i], nodes[j])
  {
    var final := Essences(r, scope, nodes);
    assert final[i].key != final[j].key;
    SameIdIff(r, scope, nodes[i], 0, nodes[j], 0);
  }

  lemma FaithfulConnections(r: Rules, scope: Scope, survivors: seq<Node>, nodes: seq<Node>)
    requires scope != Unscoped && Faithful(Essences(r, scope, survivors), Essences(r, scope, nodes))
    ensures Represent(r, scope, survivors, nodes)
  {
    forall n | n in nodes ensures ShowsOnly(r, scope, survivors, n) {
      ShowsTheirs(r, scope, survivors, nodes, n);
    }
    forall m | m in survivors ensures exists n :: n in nodes && StandsFor(r, scope, n, m) {
      var n := HasConnection(r, scope, survivors, nodes, m);
    }
    forall n | n in nodes ensures exists m :: m in survivors && m.id == n.id && SameConnection(r, scope, m, n) {
      var m := HasSurvivor(r, scope, survivors, nodes, n);
    }
    forall i, j | 0 <= i < j < |nodes| ensures !SameConnection(r, scope, nodes[i], nodes[j]) {
      DifferentConnections(r, scope, nodes, i, j);
    }
  }

  lemma ShowsTheirs(r: Rules, scope: Scope, survivors: seq<Node>, nodes: seq<Node>, n: Node)
    requires scope != Unscoped && Grounded(Essences(r, scope, survivors), Essences(r, scope, nodes)) && n in nodes
    ensures ShowsOnly(r, scope, survivors, n)
  {
    forall x | x in Marks(r, n) ensures exists m :: m in survivors && SameConnection(r, scope, m, n) && x in Marks(r, m) {
      var m := HasCarrier(r, scope, survivors, nodes, n, x);
    }
  }

  lemma SurvivorsAreVisible(r: Rules, cfg: Settings, s: NodeDeletion.State, overrides: map<NodeId, Override>, candidates: seq<Node>)
    ensures forall m | m in Survivors(r, cfg, s, overrides, candidates) :: m.id !in s.disabled && m.id !in Gone(r, s, candidates)
  {
    InKept(Kept(OverriddenAll(r, cfg, overrides, Kept(candidates, FilterOf(cfg))), RecheckOf(cfg)), StateOf(s.disabled, Gone(r, s, candidates)));
  }

  /** No final node is disabled or resolved to a deletion record. */
  lemma NothingHiddenGetsThrough(r: Rules, cfg: Settings, s: NodeDeletion.State, overrides: map<NodeId, Override>, listed: seq<Node>, n: Node)
    requires Sound(r) && n in Built(r, cfg, s, overrides, listed).nodes
    ensures n.id !in s.disabled && n.id !in Gone(r, s, Candidates(r, cfg, listed))
  {
    var survivors := Survivors(r, cfg, s, overrides, Candidates(r, cfg, listed));
    FinalConnectionsAreExact(r, cfg, s, overrides, listed);
    SurvivorsAreVisible(r, cfg, s, overrides, Candidates(r, cfg, listed));
    var m := SurvivorOf(r, cfg, survivors, Built(r, cfg, s, overrides, listed).nodes, n);
  }

  lemma EssenceIds(r: Rules, scope: Scope, nodes: seq<Node>)
    ensures var es := Essences(r, scope, nodes);
            |es| == |nodes| && forall i | 0 <= i < |nodes| :: es[i].id == nodes[i].id && es[i].key == Key(r, scope, nodes[i])
  {
  }

  lemma SurvivorIndex(unscoped: bool, es: seq<Essence>, final: seq<Essence>, j: nat) returns (i: nat)
    requires (if unscoped then multiset(final) == multiset(es) else Faithful(es, final)) && j < |final|
    ensures i < |es| && es[i].id == final[j].id
  {
    assert final[j] in final;
    var e := SomeSurvivor(unscoped, es, final, final[j]);
    i :| 0 <= i < |es| && es[i] == e;
  }

  lemma SurvivorOf(r: Rules, cfg: Settings, survivors: seq<Node>, nodes: seq<Node>, n: Node) returns (m: Node)
    requires var es, final := Essences(r, cfg.scope, survivors), Essences(r, cfg.scope, nodes);
             if cfg.scope == Unscoped then multiset(final) == multiset(es) else Faithful(es, final)
    requires n in nodes
    ensures m in survivors && m.id == n.id
  {
    var j :| 0 <= j < |nodes| && nodes[j] == n;
    EssenceIds(r, cfg.scope, nodes);
    EssenceIds(r, cfg.scope, survivors);
    var i := SurvivorIndex(cfg.scope == Unscoped, Essences(r, cfg.scope, survivors), Essences(r, cfg.scope, nodes), j);
    m := survivors[i];
  }

  lemma SomeSurvivor(unscoped: bool, es: seq<Essence>, final: seq<Essence>, n: Essence) returns (m: Essence)
    requires if unscoped then multiset(final) == multiset(es) else Faithful(es, final)
    requires n in final
    ensures m in es && m.id == n.id
  {
    if unscoped {
      assert n in multiset(final);
      m := n;
    } else {
      var i :| 0 <= i < |es| && es[i].key == n.key && es[i].id == n.id;
      m := es[i];
    }
  }

  ghost predicate DistinctNames(nodes: seq<Node>) {
    forall i, j | 0 <= i < j < |nodes| :: nodes[i].name != nodes[j].name
  }

  /** The final names are pairwise distinct exactly when no displayed name is already the numbered form that a
      repeated displayed name takes. */
  lemma FinalNamesAreDistinctIff(r: Rules, cfg: Settings, s: NodeDeletion.State, overrides: map<NodeId, Override>, listed: seq<Node>)
    requires ProxyNames.Injective(cfg.suffix)
    ensures var survivors, o := Survivors(r, cfg, s, overrides, Candidates(r, cfg, listed)), Built(r, cfg, s, overrides, listed);
            DistinctNames(o.nodes) <==> !ProxyNames.Clash(cfg.suffix, BaseNames(r, Decorated(r, cfg, Deduped(r, cfg.scope, survivors).out)))
  {
    var survivors := Survivors(r, cfg, s, overrides, Candidates(r, cfg, listed));
    PresentedNames(r, cfg, Deduped(r, cfg.scope, survivors).out);
  }

  lemma PresentedNames(r: Rules, cfg: Settings, nodes: seq<Node>)
    requires ProxyNames.Injective(cfg.suffix)
    ensures var out := Presented(r, cfg, nodes);
            DistinctNames(out) <==> !ProxyNames.Clash(cfg.suffix, BaseNames(r, Decorated(r, cfg, nodes)))
  {
    UniqueNames(Decorated(r, cfg, nodes), BaseNames(r, Decorated(r, cfg, nodes)), cfg.suffix);
  }

  lemma UniqueNames(shown: seq<Node>, names: seq<string>, suffix: (string, nat) -> string)
    requires ProxyNames.Injective(suffix) && |names| == |shown|
    ensures var out := Renamed(shown, ProxyNames.Unique(suffix, names));
            DistinctNames(out) <==> !ProxyNames.Clash(suffix, names)
  {
    ProxyNames.UniqueIff(suffix, names);
    NamesOf(shown, ProxyNames.Unique(suffix, names));
  }

  lemma NamesOf(nodes: seq<Node>, names: seq<string>)
    requires |names| == |nodes|
    ensures DistinctNames(Renamed(nodes, names)) <==> Distinct(names)
  {
    var out := Renamed(nodes, names);
    assert forall i | 0 <= i < |nodes| :: out[i].name == names[i];
  }

  // ---- Names and order ----

  ghost predicate ByName(r: Rules, nodes: seq<Node>) {
    forall i | 0 < i < |nodes| :: !Less(r.lower(nodes[i].name), r.lower(nodes[i - 1].name))
  }

  lemma NotBack(a: string, b: string)
    requires Less(a, b)
    ensures !Less(b, a)
  {
    if Less(b, a) {
      LessTransitive(a, b, a);
      LessIrreflexive(a);
    }
  }

  lemma ByNameHead(r: Rules, head: Node, rest: seq<Node>)
    requires ByName(r, rest) && (rest != [] ==> !Less(r.lower(rest[0].name), r.lower(head.name)))
    ensures ByName(r, [head] + rest)
  {
  }

  lemma {:induction false} InsertByName(r: Rules, n: Node, nodes: seq<Node>)
    requires ByName(r, nodes)
    ensures ByName(r, InsertByDisplay(r, n, nodes)) && InsertByDisplay(r, n, nodes) != []
    ensures InsertByDisplay(r, n, nodes)[0] == n || (nodes != [] && InsertByDisplay(r, n, nodes)[0] == nodes[0])
  {
    if nodes != [] && Less(r.lower(nodes[0].name), r.lower(n.name)) {
      InsertByName(r, n, nodes[1..]);
      NotBack(r.lower(nodes[0].name), r.lower(n.name));
      ByNameHead(r, nodes[0], InsertByDisplay(r, n, nodes[1..]));
    } else {
      ByNameHead(r, n, nodes);
    }
  }

  lemma {:induction false} InsertOne(r: Rules, n: Node, nodes: seq<Node>)
    ensures multiset(InsertByDisplay(r, n, nodes)) == multiset(nodes) + multiset{n}
  {
    if nodes != [] && Less(r.lower(nodes[0].name), r.lower(n.name)) {
      InsertOne(r, n, nodes[1..]);
      assert nodes == [nodes[0]] + nodes[1..];
    }
  }

  lemma {:induction false} SortedByDisplay(r: Rules, nodes: seq<Node>)
    ensures ByName(r, SortByDisplay(r, nodes))
  {
    if nodes != [] {
      SortedByDisplay(r, nodes[1..]);
      InsertByName(r, nodes[0], SortByDisplay(r, nodes[1..]));
    }
  }

  lemma {:induction false} SortKeepsAll(r: Rules, nodes: seq<Node>)
    ensures multiset(SortByDisplay(r, nodes)) == multiset(nodes)
  {
    if nodes != [] {
      SortKeepsAll(r, nodes[1..]);
      InsertOne(r, nodes[0], SortByDisplay(r, nodes[1..]));
      assert nodes == [nodes[0]] + nodes[1..];
    }
  }

  /** The name a node is numbered by: the displayed one, or protocol and place where that is blank. */
  ghost predicate NamedBy(r: Rules, shown: seq<Node>, names: seq<string>) {
    |names| == |shown| && forall i | 0 <= i < |shown| ::
      names[i] == if r.trim(shown[i].name) == "" then shown[i].proto + "-" + ProxyNames.Digits(i + 1) else shown[i].name
  }

  /** The nodes under their displayed names, in order, or sorted by these if that is asked for. */
  ghost predicate Displayed(r: Rules, cfg: Settings, nodes: seq<Node>, shown: seq<Node>) {
    var named := seq(|nodes|, i requires 0 <= i < |nodes| => nodes[i].(name := cfg.display(nodes[i])));
    if cfg.sortNodes then ByName(r, shown) && multiset(shown) == multiset(named) else shown == named
  }

  /** Of equal names the first stays, the k-th becomes its k-th numbered form. */
  ghost predicate NumberedFrom(cfg: Settings, shown: seq<Node>, names: seq<string>, out: seq<Node>) {
    && |out| == |shown| == |names|
    && forall i | 0 <= i < |out| ::
         var k := |ProxyNames.Places(names, i + 1, names[i])|; out[i] == shown[i].(name := if k == 1 then names[i] else cfg.suffix(names[i], k))
  }

  /** The final nodes: displayed names, sorted if asked for, blank ones replaced, repeated ones numbered. */
  lemma FinalNamesAre(r: Rules, cfg: Settings, s: NodeDeletion.State, overrides: map<NodeId, Override>, listed: seq<Node>)
    returns (shown: seq<Node>, names: seq<string>)
    ensures var merged := Deduped(r, cfg.scope, Survivors(r, cfg, s, overrides, Candidates(r, cfg, listed))).out;
            Displayed(r, cfg, merged, shown) && NamedBy(r, shown, names) && NumberedFrom(cfg, shown, names, Built(r, cfg, s, overrides, listed).nodes)
  {
    var merged := Deduped(r, cfg.scope, Survivors(r, cfg, s, overrides, Candidates(r, cfg, listed))).out;
    shown, names := PresentedAre(r, cfg, merged);
  }

  lemma DecoratedAre(r: Rules, cfg: Settings, nodes: seq<Node>)
    ensures Displayed(r, cfg, nodes, Decorated(r, cfg, nodes))
  {
    var named := seq(|nodes|, i requires 0 <= i < |nodes| => nodes[i].(name := cfg.display(nodes[i])));
    SortedByDisplay(r, named);
    SortKeepsAll(r, named);
  }

  lemma RenamedAre(cfg: Settings, shown: seq<Node>, names: seq<string>)
    requires |names| == |shown|
    ensures NumberedFrom(cfg, shown, names, Renamed(shown, ProxyNames.Unique(cfg.suffix, names)))
  {
    var unique := ProxyNames.Unique(cfg.suffix, names);
    forall i | 0 <= i < |shown|
      ensures unique[i] == var k := |ProxyNames.Places(names, i + 1, names[i])|; if k == 1 then names[i] else cfg.suffix(names[i], k)
    {
      ProxyNames.NumberedByPlace(cfg.suffix, names, i);
    }
  }

  lemma BaseNamesAre(r: Rules, shown: seq<Node>)
    ensures NamedBy(r, shown, BaseNames(r, shown))
  {
  }

  lemma PresentedAre(r: Rules, cfg: Settings, nodes: seq<Node>) returns (shown: seq<Node>, names: seq<string>)
    ensures Displayed(r, cfg, nodes, shown) && NamedBy(r, shown, names) && NumberedFrom(cfg, shown, names, Presented(r, cfg, nodes))
  {
    shown := Decorated(r, cfg, nodes);
    DecoratedAre(r, cfg, nodes);
    names := NumberedNames(r, cfg, shown);
  }

  lemma NumberedNames(r: Rules, cfg: Settings, shown: seq<Node>) returns (names: seq<string>)
    ensures NamedBy(r, shown, names)
    ensures NumberedFrom(cfg, shown, names, Renamed(shown, ProxyNames.Unique(cfg.suffix, BaseNames(r, shown))))
  {
    names := BaseNames(r, shown);
    BaseNamesAre(r, shown);
    RenamedAre(cfg, shown, names);
  }
}
