/** Proxy nodes, their normalisation and their identity: `internal/model/node.go` and the identity parts of
    `internal/pipeline`. Case folding, text sanitising, region inference and default names are parameters
    of which only idempotence is used; hashes are injective, so an id is what was hashed. */
module Nodes {
  import opened Common
  import opened Text

  datatype Source = Source(id: string, name: string, emoji: string, kind: string, urlHash: string)

  /** What every connection id hashes. */
  datatype Fingerprint = Fingerprint(proto: string, server: string, port: int, auth: string, transport: string,
                                     sni: string, fingerprint: string, clientFingerprint: string)

  datatype Scope = Global | PerSource | Unscoped

  datatype NodeId =
    | Blank
    | GlobalId(fp: Fingerprint)
    | SourceId(fp: Fingerprint, source: string)
    | IndexId(fp: Fingerprint, source: string, index: nat)
    | CustomId(base: NodeId)   // the "custom-" prefix
    | OtherId(text: string)    // an id supplied from outside

  /** `position` numbers the candidates of one run; the program has no such field. */
  datatype Node = Node(
    id: NodeId, name: string, proto: string, server: string, port: int, auth: string, transport: string,
    sni: string, fingerprint: string, clientFingerprint: string,
    source: Source, sources: seq<Source>, tags: set<string>, warnings: set<string>,
    obfs: Option<string>, position: nat)

  datatype Rules = Rules(
    trim: string -> string,                         // TrimSpace
    lower: string -> string,                        // ToLower of TrimSpace
    sanitize: string -> string,                     // sanitizeText
    regions: string -> set<string>,                 // inferRegionTags
    defaultName: (string, string, int) -> string)

  ghost predicate Sound(r: Rules) {
    && (forall s: string :: r.trim(r.trim(s)) == r.trim(s))
    && (forall s: string :: r.lower(r.lower(s)) == r.lower(s))
    && (forall s: string :: r.sanitize(r.sanitize(s)) == r.sanitize(s))
    && (forall s: string, t: string | t in r.regions(s) :: r.sanitize(t) == t && t != "")
    && r.lower(r.sanitize("custom")) == "custom"
  }

  // ---- Source lists ----

  const NO_SOURCE := Source("", "", "", "", "")

  function NormalizeSource(r: Rules, s: Source): Source {
    Source(r.sanitize(s.id), r.sanitize(s.name), r.trim(s.emoji), r.sanitize(s.kind), r.sanitize(s.urlHash))
  }

  function NormalizeEach(r: Rules, ss: seq<Source>): seq<Source> {
    seq(|ss|, i requires 0 <= i < |ss| => NormalizeSource(r, ss[i]))
  }

  function Drop(ss: seq<Source>, s: Source): seq<Source> {
    if ss == [] then [] else (if ss[0] == s then [] else [ss[0]]) + Drop(ss[1..], s)
  }

  /** First occurrences, in order. */
  function FirstOnly(ss: seq<Source>): seq<Source> {
    if ss == [] then [] else [ss[0]] + Drop(FirstOnly(ss[1..]), ss[0])
  }

  /** Insertion before the first source whose name is not smaller: the step of a stable sort. */
  function InsertByName(s: Source, ss: seq<Source>): seq<Source> {
    if ss == [] || !Less(ss[0].name, s.name) then [s] + ss else [ss[0]] + InsertByName(s, ss[1..])
  }

  /** `sort.SliceStable` by name. */
  function SortByName(ss: seq<Source>): seq<Source> {
    if ss == [] then [] else InsertByName(ss[0], SortByName(ss[1..]))
  }

  /** `mergeSources`, of normalised sources. */
  function MergeSources(ss: seq<Source>): seq<Source> {
    SortByName(Drop(FirstOnly(ss), NO_SOURCE))
  }

  /** `normalizeSourceList`. */
  function NormalizeSources(r: Rules, primary: Source, ss: seq<Source>): seq<Source> {
    var p := NormalizeSource(r, primary);
    MergeSources((if p == NO_SOURCE then [] else [p]) + NormalizeEach(r, ss))
  }

  ghost predicate Unique(ss: seq<Source>) {
    forall i, j | 0 <= i < j < |ss| :: ss[i] != ss[j]
  }

  ghost predicate SortedByName(ss: seq<Source>) {
    forall i | 0 < i < |ss| :: !Less(ss[i].name, ss[i - 1].name)
  }

  lemma {:induction false} DropProperties(ss: seq<Source>, s: Source)
    ensures forall x :: x in Drop(ss, s) <==> x in ss && x != s
    ensures s !in ss ==> Drop(ss, s) == ss
    ensures Unique(ss) ==> Unique(Drop(ss, s))
  {
    if ss != [] {
      DropProperties(ss[1..], s);
      assert ss == [ss[0]] + ss[1..];
      if Unique(ss) {
        assert ss[0] !in ss[1..];
      }
    }
  }

  lemma {:induction false} FirstOnlyProperties(ss: seq<Source>)
    ensures forall x :: x in FirstOnly(ss) <==> x in ss
    ensures Unique(FirstOnly(ss)) && (Unique(ss) ==> FirstOnly(ss) == ss)
  {
    if ss != [] {
      var head, tail := ss[0], ss[1..];
      FirstOnlyProperties(tail);
      FirstOnlyStep(head, tail);
      assert ss == [head] + tail;
    }
  }

  lemma FirstOnlyStep(head: Source, tail: seq<Source>)
    requires (forall x :: x in FirstOnly(tail) <==> x in tail)
    requires Unique(FirstOnly(tail)) && (Unique(tail) ==> FirstOnly(tail) == tail)
    ensures var rest := Drop(FirstOnly(tail), head);
            && (forall x :: x in [head] + rest <==> x in [head] + tail)
            && Unique([head] + rest) && (Unique([head] + tail) ==> rest == tail)
  {
    DropProperties(FirstOnly(tail), head);
    UniqueHead(head, tail);
    UniqueHead(head, Drop(FirstOnly(tail), head));
  }

  lemma UniqueHead(head: Source, tail: seq<Source>)
    ensures Unique([head] + tail) <==> head !in tail && Unique(tail)
  {
    var ss := [head] + tail;
    assert ss[0] == head && forall i | 0 < i < |ss| :: ss[i] == tail[i - 1];
    if head !in tail && Unique(tail) {
      assert forall i, j | 0 < i < j < |ss| :: ss[i] == tail[i - 1] && ss[j] == tail[j - 1];
    }
    if Unique(ss) {
      assert forall i | 0 <= i < |tail| :: tail[i] == ss[i + 1];
    }
  }

  lemma {:induction false} InsertElements(s: Source, ss: seq<Source>)
    ensures forall x :: x in InsertByName(s, ss) <==> x == s || x in ss
  {
    if ss != [] && Less(ss[0].name, s.name) {
      InsertElements(s, ss[1..]);
      assert ss == [ss[0]] + ss[1..];
    }
  }

  lemma {:induction false} InsertSorted(s: Source, ss: seq<Source>)
    requires SortedByName(ss)
    ensures SortedByName(InsertByName(s, ss))
  {
    if ss != [] && Less(ss[0].name, s.name) {
      InsertSorted(s, ss[1..]);
      InsertAfterHead(s, ss);
    }
  }

  lemma {:induction false} InsertUnique(s: Source, ss: seq<Source>)
    requires Unique(ss) && s !in ss
    ensures Unique(InsertByName(s, ss))
  {
    if ss != [] && Less(ss[0].name, s.name) {
      InsertUnique(s, ss[1..]);
      InsertElements(s, ss[1..]);
      assert ss[0] !in ss[1..];
    }
  }

  lemma {:induction false} InsertThenDrop(s: Source, ss: seq<Source>)
    requires s !in ss
    ensures Drop(InsertByName(s, ss), s) == ss
  {
    if ss != [] && Less(ss[0].name, s.name) {
      InsertThenDrop(s, ss[1..]);
      assert InsertByName(s, ss)[1..] == InsertByName(s, ss[1..]);
    } else {
      DropProperties(ss, s);
      assert ([s] + ss)[1..] == ss;
    }
  }

  lemma InsertAfterHead(s: Source, ss: seq<Source>)
    requires ss != [] && Less(ss[0].name, s.name) && SortedByName(ss) && SortedByName(InsertByName(s, ss[1..]))
    ensures SortedByName(InsertByName(s, ss))
  {
    var rest := InsertByName(s, ss[1..]);
    assert InsertByName(s, ss) == [ss[0]] + rest;
    if rest[0] == s {
      if Less(s.name, ss[0].name) {
        LessTransitive(s.name, ss[0].name, s.name);
        LessIrreflexive(s.name);
      }
    } else {
      assert rest[0] == ss[1];
    }
  }

  lemma {:induction false} SortProperties(ss: seq<Source>)
    ensures forall x :: x in SortByName(ss) <==> x in ss
    ensures SortedByName(SortByName(ss)) && (Unique(ss) ==> Unique(SortByName(ss)))
  {
    if ss != [] {
      SortProperties(ss[1..]);
      InsertElements(ss[0], SortByName(ss[1..]));
      InsertSorted(ss[0], SortByName(ss[1..]));
      assert ss == [ss[0]] + ss[1..];
      if Unique(ss) {
        assert ss[0] !in ss[1..];
        InsertUnique(ss[0], SortByName(ss[1..]));
      }
    }
  }

  lemma {:induction false} SortOfSorted(ss: seq<Source>)
    requires SortedByName(ss)
    ensures SortByName(ss) == ss
  {
    if ss != [] {
      assert SortedByName(ss[1..]);
      SortOfSorted(ss[1..]);
      if |ss| > 1 {
        assert !Less(ss[1].name, ss[0].name);
      }
    }
  }

  /** Merging again, with the primary source in front once more, changes nothing. */
  lemma MergeIsIdempotent(p: Source, rest: seq<Source>)
    requires p != NO_SOURCE
    ensures MergeSources([p] + MergeSources([p] + rest)) == MergeSources([p] + rest)
  {
    var all := FirstOnly([p] + rest);
    FirstOnlyProperties([p] + rest);
    assert ([p] + rest)[1..] == rest;
    var tail := Drop(FirstOnly(rest), p);
    assert all == [p] + tail;
    DropProperties(FirstOnly(rest), p);
    var others := Drop(tail, NO_SOURCE);
    DropProperties(tail, NO_SOURCE);
    assert Drop(all, NO_SOURCE) == [p] + others by { assert all[1..] == tail; }
    FirstOnlyProperties(rest);
    var sorted := SortByName(others);
    SortProperties(others);
    InsertElements(p, sorted);
    InsertUnique(p, sorted);
    InsertThenDrop(p, sorted);
    var merged := MergeSources([p] + rest);
    assert merged == InsertByName(p, sorted) by { assert ([p] + others)[1..] == others; }
    // once more
    FirstOnlyProperties(merged);
    assert ([p] + merged)[1..] == merged;
    assert FirstOnly([p] + merged) == [p] + sorted;
    DropProperties(sorted, NO_SOURCE);
    assert ([p] + sorted)[1..] == sorted;
    assert Drop([p] + sorted, NO_SOURCE) == [p] + sorted;
    SortOfSorted(sorted);
  }

  lemma MergeIsIdempotentAlone(rest: seq<Source>)
    ensures MergeSources(MergeSources(rest)) == MergeSources(rest)
  {
    FirstOnlyProperties(rest);
    DropProperties(FirstOnly(rest), NO_SOURCE);
    SortProperties(Drop(FirstOnly(rest), NO_SOURCE));
    var merged := MergeSources(rest);
    FirstOnlyProperties(merged);
    DropProperties(merged, NO_SOURCE);
    SortOfSorted(merged);
  }

  lemma MergedElements(ss: seq<Source>)
    ensures forall x :: x in MergeSources(ss) <==> x in ss && x != NO_SOURCE
  {
    FirstOnlyProperties(ss);
    DropProperties(FirstOnly(ss), NO_SOURCE);
    SortProperties(Drop(FirstOnly(ss), NO_SOURCE));
  }

  lemma NormalizedStay(r: Rules, ss: seq<Source>)
    requires forall s | s in ss :: NormalizeSource(r, s) == s
    ensures NormalizeEach(r, ss) == ss
  {
    assert forall i | 0 <= i < |ss| :: ss[i] in ss;
  }

  lemma SourceNormalOnce(r: Rules, s: Source)
    requires Sound(r)
    ensures NormalizeSource(r, NormalizeSource(r, s)) == NormalizeSource(r, s)
  {
  }

  lemma MergedAreNormal(r: Rules, primary: Source, ss: seq<Source>)
    requires Sound(r)
    ensures NormalizeEach(r, NormalizeSources(r, primary, ss)) == NormalizeSources(r, primary, ss)
  {
    var p := NormalizeSource(r, primary);
    SourceNormalOnce(r, primary);
    var each := NormalizeEach(r, ss);
    MergedElements((if p == NO_SOURCE then [] else [p]) + each);
    var once := NormalizeSources(r, primary, ss);
    forall s | s in once ensures NormalizeSource(r, s) == s {
      if s in each {
        var i :| 0 <= i < |each| && each[i] == s;
        SourceNormalOnce(r, ss[i]);
      }
    }
    NormalizedStay(r, once);
  }

  lemma SourcesNormalOnce(r: Rules, primary: Source, ss: seq<Source>)
    requires Sound(r)
    ensures var p := NormalizeSource(r, primary);
            NormalizeSources(r, p, NormalizeSources(r, primary, ss)) == NormalizeSources(r, primary, ss)
  {
    var p := NormalizeSource(r, primary);
    SourceNormalOnce(r, primary);
    MergedAreNormal(r, primary, ss);
    var each := NormalizeEach(r, ss);
    if p == NO_SOURCE {
      assert [] + each == each && [] + NormalizeSources(r, primary, ss) == NormalizeSources(r, primary, ss);
      MergeIsIdempotentAlone(each);
    } else {
      MergeIsIdempotent(p, each);
    }
  }

  // ---- Normalisation ----

  function CleanStrings(r: Rules, ss: set<string>): set<string> {
    (set s | s in ss :: r.sanitize(s)) - {""}
  }

  /** Hysteria2 obfuscation: "none" and blank mean no obfuscation. */
  function NormalizeObfs(r: Rules, proto: string, obfs: Option<string>): Option<string> {
    if proto != "hysteria2" || obfs.None? then obfs
    else
      var o := if r.lower(obfs.value) == "none" then "" else r.lower(obfs.value);
      if o == obfs.value then obfs else if o == "" then None else Some(o)
  }

  function FingerprintOf(r: Rules, n: Node): Fingerprint {
    Fingerprint(n.proto, r.lower(n.server), n.port, n.auth, n.transport, r.trim(n.sni), r.trim(n.fingerprint), r.trim(n.clientFingerprint))
  }

  /** `StableNodeIDWithScope`. */
  function StableId(r: Rules, n: Node, scope: Scope, index: nat): NodeId {
    match scope
    case Global => GlobalId(FingerprintOf(r, n))
    case PerSource => SourceId(FingerprintOf(r, n), r.lower(n.source.id))
    case Unscoped => IndexId(FingerprintOf(r, n), r.lower(n.source.id), index)
  }

  /** The same server, credentials, transport and TLS parameters, and outside scope global the same source. */
  ghost predicate SameConnection(r: Rules, scope: Scope, a: Node, b: Node) {
    && a.proto == b.proto && r.lower(a.server) == r.lower(b.server) && a.port == b.port
    && a.auth == b.auth && a.transport == b.transport && r.trim(a.sni) == r.trim(b.sni)
    && r.trim(a.fingerprint) == r.trim(b.fingerprint) && r.trim(a.clientFingerprint) == r.trim(b.clientFingerprint)
    && (scope != Global ==> r.lower(a.source.id) == r.lower(b.source.id))
  }

  /** Ids are equal exactly for the same connection, and in scope none the same index. */
  lemma SameIdIff(r: Rules, scope: Scope, a: Node, i: nat, b: Node, j: nat)
    ensures StableId(r, a, scope, i) == StableId(r, b, scope, j) <==> SameConnection(r, scope, a, b) && (scope == Unscoped ==> i == j)
  {
  }

  /** `NormalizeNode`. */
  function Normalize(r: Rules, n: Node): Node {
    var proto, server, port := r.lower(n.proto), r.lower(n.server), if n.port < 0 then 0 else n.port;
    var name := if r.trim(n.name) == "" then r.defaultName(proto, server, port) else n.name;
    var m := n.(
      proto := proto, server := server, port := port, name := name,
      source := NormalizeSource(r, n.source), sources := NormalizeSources(r, n.source, n.sources),
      sni := r.sanitize(n.sni), fingerprint := r.sanitize(n.fingerprint), clientFingerprint := r.sanitize(n.clientFingerprint),
      tags := CleanStrings(r, n.tags) + r.regions(name), warnings := CleanStrings(r, n.warnings),
      obfs := NormalizeObfs(r, proto, n.obfs));
    if n.id == Blank then m.(id := StableId(r, m, Global, 0)) else m
  }

  lemma CleanStringsOnce(r: Rules, ss: set<string>, extra: set<string>)
    requires Sound(r) && forall t | t in extra :: r.sanitize(t) == t && t != ""
    ensures CleanStrings(r, CleanStrings(r, ss) + extra) == CleanStrings(r, ss) + extra
  {
    var once := CleanStrings(r, ss) + extra;
    assert forall t | t in once :: r.sanitize(t) == t && t != "";
    forall t | t in once ensures t in CleanStrings(r, once) {
      assert r.sanitize(t) == t;
    }
  }

  lemma ObfsOnce(r: Rules, proto: string, obfs: Option<string>)
    requires Sound(r)
    ensures NormalizeObfs(r, proto, NormalizeObfs(r, proto, obfs)) == NormalizeObfs(r, proto, obfs)
  {
  }

  /** Normalising twice is normalising once. */
  lemma NormalizeIsIdempotent(r: Rules, n: Node)
    requires Sound(r)
    ensures Normalize(r, Normalize(r, n)) == Normalize(r, n)
  {
    var m := Normalize(r, n);
    SourceNormalOnce(r, n.source);
    SourcesNormalOnce(r, n.source, n.sources);
    CleanStringsOnce(r, n.tags, r.regions(m.name));
    CleanStringsOnce(r, n.warnings, {});
    assert CleanStrings(r, n.warnings) + {} == CleanStrings(r, n.warnings);
    ObfsOnce(r, m.proto, n.obfs);
    var k := Normalize(r, m);
    assert k.proto == m.proto && k.server == m.server && k.port == m.port;
    assert k.name == m.name;
    assert k.id == m.id;
  }

  // ---- Which nodes are normal ----

  ghost predicate PlainText(r: Rules, s: string) {
    r.sanitize(s) == s
  }

  ghost predicate PlainSource(r: Rules, s: Source) {
    PlainText(r, s.id) && PlainText(r, s.name) && r.trim(s.emoji) == s.emoji && PlainText(r, s.kind) && PlainText(r, s.urlHash)
  }

  /** The source is listed, first among those of its name. */
  ghost predicate LeadsItsName(p: Source, ss: seq<Source>) {
    exists i :: 0 <= i < |ss| && ss[i] == p && (i > 0 ==> Less(ss[i - 1].name, p.name))
  }

  /** Plain sources, each once, by name, none empty, and among them the primary one. */
  ghost predicate NormalSources(r: Rules, primary: Source, ss: seq<Source>) {
    && (forall s | s in ss :: PlainSource(r, s) && s != NO_SOURCE) && Unique(ss) && SortedByName(ss)
    && PlainSource(r, primary) && (primary != NO_SOURCE ==> LeadsItsName(primary, ss))
  }

  ghost predicate NormalObfs(r: Rules, n: Node) {
    n.proto == "hysteria2" && n.obfs.Some? ==> r.lower(n.obfs.value) == n.obfs.value && n.obfs.value != "none"
  }

  ghost predicate PlainStrings(r: Rules, ss: set<string>) {
    forall t | t in ss :: PlainText(r, t) && t != ""
  }

  /** A node as the program keeps it. */
  ghost predicate IsNormal(r: Rules, n: Node) {
    && r.lower(n.proto) == n.proto && r.lower(n.server) == n.server && n.port >= 0 && n.id != Blank
    && (r.trim(n.name) != "" || n.name == r.defaultName(n.proto, n.server, n.port))
    && PlainText(r, n.sni) && PlainText(r, n.fingerprint) && PlainText(r, n.clientFingerprint)
    && NormalSources(r, n.source, n.sources) && NormalObfs(r, n)
    && PlainStrings(r, n.tags) && r.regions(n.name) <= n.tags && PlainStrings(r, n.warnings)
  }

  lemma CleanIff(r: Rules, ss: set<string>, extra: set<string>)
    requires Sound(r) && PlainStrings(r, extra)
    ensures CleanStrings(r, ss) + extra == ss <==> PlainStrings(r, ss) && extra <= ss
  {
    var once := CleanStrings(r, ss) + extra;
    assert PlainStrings(r, once);
    if PlainStrings(r, ss) && extra <= ss {
      forall t | t in ss ensures t in CleanStrings(r, ss) {
        assert r.sanitize(t) == t;
      }
    }
  }

  lemma ObfsIff(r: Rules, n: Node)
    requires r.lower("") == ""
    ensures NormalizeObfs(r, n.proto, n.obfs) == n.obfs <==> NormalObfs(r, n)
  {
  }

  lemma {:induction false} BeforeIsLess(ss: seq<Source>, i: nat, k: nat)
    requires k < i < |ss| && SortedByName(ss) && Less(ss[i - 1].name, ss[i].name)
    ensures Less(ss[k].name, ss[i].name)
    decreases i - k
  {
    if k + 1 < i {
      BeforeIsLess(ss, i, k + 1);
      LessTotal(ss[k].name, ss[k + 1].name);
      if ss[k].name != ss[k + 1].name {
        LessTransitive(ss[k].name, ss[k + 1].name, ss[i].name);
      }
    }
  }

  lemma {:induction false} InsertBack(before: seq<Source>, s: Source, after: seq<Source>)
    requires forall i | 0 <= i < |before| :: Less(before[i].name, s.name)
    requires after != [] ==> !Less(after[0].name, s.name)
    ensures InsertByName(s, before + after) == before + [s] + after
  {
    if before == [] {
      assert before + after == after;
    } else {
      assert (before + after)[1..] == before[1..] + after;
      InsertBack(before[1..], s, after);
    }
  }

  lemma {:induction false} DropAt(before: seq<Source>, s: Source, after: seq<Source>)
    requires s !in before && s !in after
    ensures Drop(before + [s] + after, s) == before + after
  {
    if before == [] {
      assert before + [s] + after == [s] + after && before + after == after;
      DropProperties(after, s);
    } else {
      assert (before + [s] + after)[1..] == before[1..] + [s] + after;
      DropAt(before[1..], s, after);
    }
  }

  lemma Takes(before: seq<Source>, p: Source, after: seq<Source>)
    requires Unique(before + [p] + after)
    ensures Drop(before + [p] + after, p) == before + after
  {
    var ss, i := before + [p] + after, |before|;
    assert ss[i] == p && (forall k | 0 <= k < i :: ss[k] == before[k]) && forall k | 0 <= k < |after| :: ss[i + 1 + k] == after[k];
    assert p !in before && p !in after;
    DropAt(before, p, after);
  }

  lemma PutsBack(before: seq<Source>, p: Source, after: seq<Source>)
    requires SortedByName(before + [p] + after) && (before != [] ==> Less(before[|before| - 1].name, p.name))
    ensures InsertByName(p, before + after) == before + [p] + after
  {
    var ss, i := before + [p] + after, |before|;
    assert ss[i] == p && (after != [] ==> ss[i + 1] == after[0]);
    forall k | 0 <= k < i ensures Less(before[k].name, p.name) {
      assert ss[k] == before[k] && ss[i - 1] == before[i - 1];
      BeforeIsLess(ss, i, k);
    }
    InsertBack(before, p, after);
  }

  lemma StillSorted(before: seq<Source>, p: Source, after: seq<Source>)
    requires SortedByName(before + [p] + after) && (before != [] ==> Less(before[|before| - 1].name, p.name))
    ensures SortedByName(before + after)
  {
    var ss, i, rest := before + [p] + after, |before|, before + after;
    assert ss[i] == p;
    forall k | 0 < k < |rest| ensures !Less(rest[k].name, rest[k - 1].name) {
      if k < i {
        assert rest[k] == ss[k] && rest[k - 1] == ss[k - 1];
      } else {
        assert rest[k] == ss[k + 1] && !Less(ss[k + 1].name, ss[k].name);
        if k == i && Less(rest[k].name, rest[k - 1].name) {
          LessTransitive(rest[k].name, rest[k - 1].name, p.name);
        }
      }
    }
  }

  lemma {:induction false} InsertLeads(p: Source, ss: seq<Source>)
    ensures LeadsItsName(p, InsertByName(p, ss))
  {
    var out := InsertByName(p, ss);
    if ss != [] && Less(ss[0].name, p.name) {
      var rest := InsertByName(p, ss[1..]);
      InsertLeads(p, ss[1..]);
      var i :| 0 <= i < |rest| && rest[i] == p && (i > 0 ==> Less(rest[i - 1].name, p.name));
      assert out == [ss[0]] + rest;
      assert out[i + 1] == p && Less(out[i].name, p.name);
    } else {
      assert out[0] == p;
    }
  }

  lemma MergeOfNormal(ss: seq<Source>)
    requires Unique(ss) && SortedByName(ss) && NO_SOURCE !in ss
    ensures MergeSources(ss) == ss
  {
    FirstOnlyProperties(ss);
    DropProperties(ss, NO_SOURCE);
    SortOfSorted(ss);
  }

  lemma MergePrimary(p: Source, ss: seq<Source>)
    requires p != NO_SOURCE
    ensures MergeSources([p] + ss) == InsertByName(p, SortByName(Drop(Drop(FirstOnly(ss), p), NO_SOURCE)))
  {
    var tail := Drop(FirstOnly(ss), p);
    assert ([p] + ss)[1..] == ss && ([p] + tail)[1..] == tail;
    var others := Drop(tail, NO_SOURCE);
    assert ([p] + others)[1..] == others;
  }

  /** Taking out the source that leads its name and putting it in again changes nothing. */
  lemma TakeOut(p: Source, ss: seq<Source>)
    requires Unique(ss) && SortedByName(ss) && LeadsItsName(p, ss)
    ensures SortedByName(Drop(ss, p)) && InsertByName(p, Drop(ss, p)) == ss
  {
    var i :| 0 <= i < |ss| && ss[i] == p && (i > 0 ==> Less(ss[i - 1].name, p.name));
    var before, after := ss[..i], ss[i + 1..];
    assert ss == before + [p] + after;
    Takes(before, p, after);
    PutsBack(before, p, after);
    StillSorted(before, p, after);
  }

  lemma MergeOfLed(p: Source, ss: seq<Source>)
    requires p != NO_SOURCE && Unique(ss) && SortedByName(ss) && NO_SOURCE !in ss && LeadsItsName(p, ss)
    ensures MergeSources([p] + ss) == ss
  {
    MergePrimary(p, ss);
    FirstOnlyProperties(ss);
    TakeOut(p, ss);
    DropProperties(ss, p);
    DropProperties(Drop(ss, p), NO_SOURCE);
    SortOfSorted(Drop(ss, p));
  }

  lemma NormalSourcesStay(r: Rules, p: Source, ss: seq<Source>)
    requires NormalSources(r, p, ss)
    ensures NormalizeSources(r, p, ss) == ss
  {
    NormalizedStay(r, ss);
    if p == NO_SOURCE {
      assert [] + ss == ss;
      MergeOfNormal(ss);
    } else {
      MergeOfLed(p, ss);
    }
  }

  lemma MergedShape(all: seq<Source>)
    ensures var ss := MergeSources(all); Unique(ss) && SortedByName(ss) && NO_SOURCE !in ss
  {
    MergedElements(all);
    FirstOnlyProperties(all);
    DropProperties(FirstOnly(all), NO_SOURCE);
    SortProperties(Drop(FirstOnly(all), NO_SOURCE));
  }

  lemma MergedIsNormal(r: Rules, p: Source, ss: seq<Source>)
    requires Sound(r) && PlainSource(r, p) && NormalizeSources(r, p, ss) == ss
    ensures NormalSources(r, p, ss)
  {
    MergedAreNormal(r, p, ss);
    forall s | s in ss ensures PlainSource(r, s) {
      var i :| 0 <= i < |ss| && ss[i] == s;
      assert NormalizeEach(r, ss)[i] == NormalizeSource(r, s);
    }
    MergedShape((if p == NO_SOURCE then [] else [p]) + ss);
    if p != NO_SOURCE {
      MergePrimary(p, ss);
      InsertLeads(p, SortByName(Drop(Drop(FirstOnly(ss), p), NO_SOURCE)));
    }
  }

  /** Normalising leaves a node as it is exactly if it is normal; so, as it is idempotent, it always gives a normal one. */
  lemma FixedIffNormal(r: Rules, n: Node)
    requires Sound(r) && r.lower("") == ""
    ensures Normalize(r, n) == n <==> IsNormal(r, n)
  {
    CleanIff(r, n.tags, r.regions(n.name));
    CleanIff(r, n.warnings, {});
    assert CleanStrings(r, n.warnings) + {} == CleanStrings(r, n.warnings);
    ObfsIff(r, n);
    if Normalize(r, n) == n {
      MergedIsNormal(r, n.source, n.sources);
    }
    if IsNormal(r, n) {
      NormalSourcesStay(r, n.source, n.sources);
    }
  }

  /** What is there already is kept: the id, the name, a port, credentials and transport. */
  lemma NormalizedIsNormal(r: Rules, n: Node)
    requires Sound(r) && r.lower("") == ""
    ensures var m := Normalize(r, n);
            && IsNormal(r, m) && (n.id != Blank ==> m.id == n.id) && (r.trim(n.name) != "" ==> m.name == n.name)
            && m.port == (if n.port < 0 then 0 else n.port) && m.auth == n.auth && m.transport == n.transport
  {
    NormalizeIsIdempotent(r, n);
    FixedIffNormal(r, Normalize(r, n));
  }
}
