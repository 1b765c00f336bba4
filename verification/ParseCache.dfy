/** The LRU cache in front of the source parser, `internal/pipeline/parse_cache.go`. It has three budgets,
    gives up its mutex while it parses, and must not be observable: every call returns what the parser
    returns. The parser and the digest are arbitrary functions, the digest injective. */
module ParseCache {
  import opened Common

  type Bytes = seq<bv8>

  datatype Source = Source(id: string, name: string, emoji: string, kind: string, urlHash: string)

  datatype Result = Result(nodes: seq<string>, warnings: seq<string>, errors: seq<string>)

  datatype Key = Key(digest: nat, source: Source)

  datatype Entry = Entry(key: Key, result: Result, bytes: nat)

  /** The parser, the digest and the budgets. */
  datatype Config = Config(
    parse: (Bytes, Source) -> Result,
    digest: Bytes -> nat,
    maxEntries: int,
    maxBytes: int,
    maxNodes: int)

  /** `entries` maps a key to its list element; `lru` is the list, most recently used first. */
  datatype Cache = Cache(entries: map<Key, Entry>, lru: seq<Entry>, bytes: int, nodes: int)

  function KeyOf(cfg: Config, content: Bytes, source: Source): Key {
    Key(cfg.digest(content), source)
  }

  predicate Cacheable(cfg: Config, content: Bytes) {
    |content| <= cfg.maxBytes && cfg.maxEntries > 0
  }

  predicate Storable(cfg: Config, r: Result) {
    r.errors == [] && 0 < |r.nodes| <= cfg.maxNodes
  }

  /** The list without the element of a key. */
  function Remove(lru: seq<Entry>, key: Key): seq<Entry> {
    if lru == [] then [] else if lru[0].key == key then lru[1..] else [lru[0]] + Remove(lru[1..], key)
  }

  /** `MoveToFront`. */
  function Touch(c: Cache, key: Key): Cache {
    if key in c.entries then c.(lru := [c.entries[key]] + Remove(c.lru, key)) else c
  }

  ghost function TotalBytes(lru: seq<Entry>): nat {
    if lru == [] then 0 else lru[0].bytes + TotalBytes(lru[1..])
  }

  ghost function TotalNodes(lru: seq<Entry>): nat {
    if lru == [] then 0 else |lru[0].result.nodes| + TotalNodes(lru[1..])
  }

  /** There is room for one more entry. */
  ghost predicate Fits(cfg: Config, lru: seq<Entry>, e: Entry) {
    && |lru| < cfg.maxEntries
    && TotalBytes(lru) + e.bytes <= cfg.maxBytes
    && TotalNodes(lru) + |e.result.nodes| <= cfg.maxNodes
  }

  /** Drops least recently used entries until there is room. */
  ghost function Evict(cfg: Config, lru: seq<Entry>, e: Entry): seq<Entry> {
    if lru == [] || Fits(cfg, lru, e) then lru else Evict(cfg, lru[..|lru| - 1], e)
  }

  function OnlyIn(entries: map<Key, Entry>, lru: seq<Entry>): map<Key, Entry> {
    map k | k in entries && entries[k] in lru :: entries[k]
  }

  /** The second critical section of `parse`. */
  ghost function Store(cfg: Config, c: Cache, e: Entry): Cache {
    if e.key in c.entries then Touch(c, e.key)
    else
      var kept := Evict(cfg, c.lru, e);
      Cache(OnlyIn(c.entries, kept)[e.key := e],
            [e] + kept, TotalBytes([e] + kept), TotalNodes([e] + kept))
  }

  ghost predicate DistinctKeys(lru: seq<Entry>) {
    forall i, j | 0 <= i < j < |lru| :: lru[i].key != lru[j].key
  }

  /** The map and the list are a bijection. */
  ghost predicate Linked(entries: map<Key, Entry>, lru: seq<Entry>) {
    && DistinctKeys(lru)
    && (forall i | 0 <= i < |lru| :: lru[i].key in entries && entries[lru[i].key] == lru[i])
    && (forall k | k in entries :: entries[k].key == k && entries[k] in lru)
  }

  ghost predicate Bijective(c: Cache) {
    Linked(c.entries, c.lru)
  }

  ghost predicate Budgeted(cfg: Config, c: Cache) {
    && c.bytes == TotalBytes(c.lru) && c.nodes == TotalNodes(c.lru)
    && (c.lru == [] || (|c.lru| <= cfg.maxEntries && c.bytes <= cfg.maxBytes && c.nodes <= cfg.maxNodes))
  }

  /** Every cached result is the parser's own. */
  ghost predicate Truthful(cfg: Config, c: Cache) {
    forall content: Bytes, source: Source | KeyOf(cfg, content, source) in c.entries ::
      c.entries[KeyOf(cfg, content, source)].result == cfg.parse(content, source)
  }

  ghost predicate Inv(cfg: Config, c: Cache) {
    Bijective(c) && Budgeted(cfg, c) && Truthful(cfg, c)
  }

  ghost predicate Injective(cfg: Config) {
    forall a: Bytes, b: Bytes | cfg.digest(a) == cfg.digest(b) :: a == b
  }

  lemma {:induction false} RemoveSums(lru: seq<Entry>, i: nat)
    requires i < |lru| && DistinctKeys(lru)
    ensures var r := Remove(lru, lru[i].key);
            && r == lru[..i] + lru[i + 1..]
            && TotalBytes(r) == TotalBytes(lru) - lru[i].bytes
            && TotalNodes(r) == TotalNodes(lru) - |lru[i].result.nodes|
  {
    if i > 0 {
      assert lru[1..][..i - 1] == lru[1..i] && lru[1..][i..] == lru[i + 1..];
      RemoveSums(lru[1..], i - 1);
      assert lru[..i] + lru[i + 1..] == [lru[0]] + (lru[1..i] + lru[i + 1..]);
    }
  }

  /** What `MoveToFront` does to the list. */
  lemma TouchMoves(c: Cache, key: Key) returns (i: nat)
    requires Bijective(c) && key in c.entries
    ensures i < |c.lru| && c.lru[i] == c.entries[key]
    ensures Touch(c, key).lru == [c.lru[i]] + (c.lru[..i] + c.lru[i + 1..])
    ensures TotalBytes(Touch(c, key).lru) == TotalBytes(c.lru) && TotalNodes(Touch(c, key).lru) == TotalNodes(c.lru)
  {
    i :| 0 <= i < |c.lru| && c.lru[i] == c.entries[key];
    RemoveSums(c.lru, i);
    var e, rest := c.lru[i], Remove(c.lru, key);
    assert Touch(c, key).lru == [e] + rest && ([e] + rest)[1..] == rest;
  }

  lemma MoveFrontElements(lru: seq<Entry>, i: nat, moved: seq<Entry>)
    requires i < |lru| && moved == [lru[i]] + (lru[..i] + lru[i + 1..])
    ensures |moved| == |lru| && forall e :: e in moved <==> e in lru
    ensures DistinctKeys(lru) ==> DistinctKeys(moved)
  {
  }

  lemma TouchBijective(c: Cache, key: Key)
    requires Bijective(c)
    ensures Bijective(Touch(c, key)) && |Touch(c, key).lru| == |c.lru|
  {
    if key in c.entries {
      var i := TouchMoves(c, key);
      var lru := Touch(c, key).lru;
      MoveFrontElements(c.lru, i, lru);
      SameElementsLinked(c.entries, c.lru, lru);
    }
  }

  lemma SameElementsLinked(entries: map<Key, Entry>, lru: seq<Entry>, moved: seq<Entry>)
    requires Linked(entries, lru) && DistinctKeys(moved) && forall e :: e in moved <==> e in lru
    ensures Linked(entries, moved)
  {
    assert forall j | 0 <= j < |moved| :: moved[j] in lru;
  }

  lemma TouchKeeps(cfg: Config, c: Cache, key: Key)
    requires Inv(cfg, c)
    ensures Inv(cfg, Touch(c, key))
  {
    TouchBijective(c, key);
    if key in c.entries {
      var i := TouchMoves(c, key);
      assert Touch(c, key).lru != [];
    }
  }

  /** Eviction keeps the longest run of recent entries that leaves room, provided the new entry fits
      an empty cache; so it never runs the list dry. */
  lemma {:induction false} EvictKeepsLongest(cfg: Config, lru: seq<Entry>, e: Entry)
    requires Fits(cfg, [], e)
    ensures var kept := Evict(cfg, lru, e);
            && kept <= lru && Fits(cfg, kept, e)
            && forall n | |kept| < n <= |lru| :: !Fits(cfg, lru[..n], e)
  {
    if lru == [] || Fits(cfg, lru, e) {
      assert lru[..|lru|] == lru;
    } else {
      var shorter := lru[..|lru| - 1];
      EvictKeepsLongest(cfg, shorter, e);
      var kept := Evict(cfg, lru, e);
      forall n | |kept| < n <= |lru| ensures !Fits(cfg, lru[..n], e) {
        if n < |lru| { assert shorter[..n] == lru[..n]; } else { assert lru[..n] == lru; }
      }
    }
  }

  lemma StoreBijective(cfg: Config, c: Cache, e: Entry)
    requires Bijective(c) && e.key !in c.entries && Evict(cfg, c.lru, e) <= c.lru
    ensures Bijective(Store(cfg, c, e))
  {
    var kept := Evict(cfg, c.lru, e);
    PrefixLinked(c.entries, c.lru, kept);
    FrontLinked(OnlyIn(c.entries, kept), kept, e);
  }

  lemma PrefixLinked(entries: map<Key, Entry>, lru: seq<Entry>, kept: seq<Entry>)
    requires Linked(entries, lru) && kept <= lru
    ensures Linked(OnlyIn(entries, kept), kept)
  {
  }

  lemma FrontLinked(entries: map<Key, Entry>, lru: seq<Entry>, e: Entry)
    requires Linked(entries, lru) && e.key !in entries
    ensures Linked(entries[e.key := e], [e] + lru)
  {
    var all := [e] + lru;
    assert forall i | 0 < i < |all| :: all[i] == lru[i - 1];
    assert all[0] == e;
  }

  lemma StoreKeeps(cfg: Config, c: Cache, content: Bytes, source: Source)
    requires Inv(cfg, c) && Injective(cfg) && Cacheable(cfg, content) && Storable(cfg, cfg.parse(content, source))
    ensures Inv(cfg, Store(cfg, c, Entry(KeyOf(cfg, content, source), cfg.parse(content, source), |content|)))
  {
    var e := Entry(KeyOf(cfg, content, source), cfg.parse(content, source), |content|);
    if e.key in c.entries {
      TouchKeeps(cfg, c, e.key);
    } else {
      EvictKeepsLongest(cfg, c.lru, e);
      StoreBijective(cfg, c, e);
      assert ([e] + Evict(cfg, c.lru, e))[1..] == Evict(cfg, c.lru, e);
    }
  }

  /** The two critical sections, by any thread, for any content: a lookup, or the insertion of a
      result parsed at any earlier time. */
  datatype Action = LookUp(content: Bytes, source: Source) | Insert(content: Bytes, source: Source)

  ghost function Apply(cfg: Config, c: Cache, a: Action): Cache {
    match a
    case LookUp(content, source) =>
      if Cacheable(cfg, content) then Touch(c, KeyOf(cfg, content, source)) else c
    case Insert(content, source) =>
      if Cacheable(cfg, content) && Storable(cfg, cfg.parse(content, source))
      then Store(cfg, c, Entry(KeyOf(cfg, content, source), cfg.parse(content, source), |content|))
      else c
  }

  ghost function After(cfg: Config, c: Cache, run: seq<Action>): Cache
    decreases |run|
  {
    if run == [] then c else After(cfg, Apply(cfg, c, run[0]), run[1..])
  }

  lemma {:induction false} RunKeepsInv(cfg: Config, c: Cache, run: seq<Action>)
    requires Inv(cfg, c) && Injective(cfg)
    ensures Inv(cfg, After(cfg, c, run))
    decreases |run|
  {
    if run != [] {
      match run[0]
      case LookUp(content, source) => TouchKeeps(cfg, c, KeyOf(cfg, content, source));
      case Insert(content, source) =>
        if Cacheable(cfg, content) && Storable(cfg, cfg.parse(content, source)) {
          StoreKeeps(cfg, c, content, source);
        }
    }
    if run != [] {
      assert Inv(cfg, Apply(cfg, c, run[0]));
      RunKeepsInv(cfg, Apply(cfg, c, run[0]), run[1..]);
    }
  }

  /** After any interleaving of lookups and insertions, a hit is what the parser would return, and the
      cache is within all three budgets. */
  lemma CacheIsTransparentAndBounded(cfg: Config, run: seq<Action>, content: Bytes, source: Source)
    requires Injective(cfg)
    ensures var c := After(cfg, Cache(map[], [], 0, 0), run);
            && (KeyOf(cfg, content, source) in c.entries ==>
                  c.entries[KeyOf(cfg, content, source)].result == cfg.parse(content, source))
            && (c.lru == [] || (|c.lru| <= cfg.maxEntries && TotalBytes(c.lru) <= cfg.maxBytes && TotalNodes(c.lru) <= cfg.maxNodes))
            && |c.entries| == |c.lru|
  {
    assert Inv(cfg, Cache(map[], [], 0, 0));
    RunKeepsInv(cfg, Cache(map[], [], 0, 0), run);
    var c := After(cfg, Cache(map[], [], 0, 0), run);
    SameSize(c);
  }

  lemma SameSize(c: Cache)
    requires Bijective(c)
    ensures |c.entries| == |c.lru|
  {
    var keys := KeySet(c.lru);
    assert c.entries.Keys == keys;
  }

  ghost function KeySet(lru: seq<Entry>): (s: set<Key>)
    requires DistinctKeys(lru)
    ensures |s| == |lru|
    ensures forall k :: k in s <==> exists i :: 0 <= i < |lru| && lru[i].key == k
  {
    if lru == [] then {}
    else
      var rest := KeySet(lru[1..]);
      assert forall i | 1 <= i < |lru| :: lru[i] == lru[1..][i - 1];
      assert lru[0].key !in rest;
      {lru[0].key} + rest
  }

  /** A result without errors and with nodes, of which neither the input nor the nodes exceed a budget. */
  ghost predicate WorthKeeping(cfg: Config, content: Bytes, result: Result) {
    |content| <= cfg.maxBytes && cfg.maxEntries > 0 && result.errors == [] && result.nodes != [] && |result.nodes| <= cfg.maxNodes
  }

  /** The cache as the process keeps it. */
  class ParseCache {
    const cfg: Config
    var entries: map<Key, Entry>
    var lru: seq<Entry>
    var bytes: int
    var nodes: int

    ghost function Snapshot(): Cache
      reads this
    {
      Cache(entries, lru, bytes, nodes)
    }

    ghost predicate Valid()
      reads this
    {
      Injective(cfg) && Inv(cfg, Snapshot())
    }

    constructor (cfg: Config)
      requires Injective(cfg)
      ensures Valid() && this.cfg == cfg && Snapshot() == Cache(map[], [], 0, 0)
    {
      this.cfg := cfg;
      entries, lru, bytes, nodes := map[], [], 0, 0;
    }

    /** The first critical section: a hit moves its entry to the front. */
    method LookUp(key: Key) returns (hit: Option<Result>)
      requires Valid()
      modifies this
      ensures Valid() && Snapshot() == Touch(old(Snapshot()), key)
      ensures hit == if key in entries then Some(entries[key].result) else None
    {
      TouchKeeps(cfg, Snapshot(), key);
      hit := None;
      if key in entries {
        hit := Some(entries[key].result);
        lru := [entries[key]] + Remove(lru, key);
      }
    }

    /** The eviction loop: it ends with room for `e` and never takes from an empty list. */
    static method MakeRoom(cfg: Config, c0: Cache, e: Entry) returns (c: Cache)
      requires Evicting(cfg, c0, c0, e) && Fits(cfg, [], e)
      ensures c.lru == Evict(cfg, c0.lru, e) && c.entries == OnlyIn(c0.entries, c.lru)
      ensures c.bytes == TotalBytes(c.lru) && c.nodes == TotalNodes(c.lru)
    {
      c := c0;
      while |c.lru| >= cfg.maxEntries || c.bytes + e.bytes > cfg.maxBytes || c.nodes + |e.result.nodes| > cfg.maxNodes
        invariant Evicting(cfg, c0, c, e)
        decreases |c.lru|
      {
        EvictOne(cfg, c0, c, e);
        c := Dropped(c);
      }
    }

    /** Insertion of an entry that another thread may have inserted meanwhile. */
    static method StoreEntry(cfg: Config, c0: Cache, e: Entry) returns (c: Cache)
      requires Bijective(c0) && Budgeted(cfg, c0) && Fits(cfg, [], e)
      ensures c == Store(cfg, c0, e)
    {
      if e.key in c0.entries {
        return c0.(lru := [c0.entries[e.key]] + Remove(c0.lru, e.key));
      }
      WholeMap(c0);
      c := MakeRoom(cfg, c0, e);
      c := Cache(c.entries[e.key := e], [e] + c.lru, c.bytes + e.bytes, c.nodes + |e.result.nodes|);
    }

    /** The second critical section. */
    method Insert(content: Bytes, source: Source, result: Result)
      requires Valid() && Cacheable(cfg, content) && result == cfg.parse(content, source) && Storable(cfg, result)
      modifies this
      ensures Valid()
      ensures Snapshot() == Store(cfg, old(Snapshot()), Entry(KeyOf(cfg, content, source), result, |content|))
    {
      var c := InsertInto(cfg, Cache(entries, lru, bytes, nodes), content, source, result);
      entries, lru, bytes, nodes := c.entries, c.lru, c.bytes, c.nodes;
    }

    static method InsertInto(cfg: Config, c0: Cache, content: Bytes, source: Source, result: Result) returns (c: Cache)
      requires Inv(cfg, c0) && Injective(cfg) && Cacheable(cfg, content)
      requires result == cfg.parse(content, source) && Storable(cfg, result)
      ensures c == Store(cfg, c0, Entry(KeyOf(cfg, content, source), result, |content|)) && Inv(cfg, c)
    {
      StoreKeeps(cfg, c0, content, source);
      c := StoreEntry(cfg, c0, Entry(KeyOf(cfg, content, source), result, |content|));
    }

    /** `parse`, for a caller that is not interleaved with others. */
    method Parse(content: Bytes, source: Source) returns (result: Result)
      requires Valid()
      modifies this
      ensures Valid() && result == cfg.parse(content, source)
      ensures WorthKeeping(cfg, content, result) ==> lru != [] && lru[0].key == KeyOf(cfg, content, source) && lru[0].result == result
      ensures !WorthKeeping(cfg, content, result) && KeyOf(cfg, content, source) !in old(entries) ==> Snapshot() == old(Snapshot())
    {
      if |content| > cfg.maxBytes || cfg.maxEntries <= 0 {
        return cfg.parse(content, source);
      }
      var hit := LookUp(KeyOf(cfg, content, source));
      if hit.Some? {
        return hit.value;
      }
      result := cfg.parse(content, source);
      if result.errors == [] && 0 < |result.nodes| <= cfg.maxNodes {
        Insert(content, source, result);
      }
    }
  }

  /** Some of the oldest entries of `c0` have been evicted to make room for `e`. */
  ghost predicate Evicting(cfg: Config, c0: Cache, c: Cache, e: Entry) {
    && Bijective(c) && c.bytes == TotalBytes(c.lru) && c.nodes == TotalNodes(c.lru)
    && Evict(cfg, c.lru, e) == Evict(cfg, c0.lru, e) && c.entries == OnlyIn(c0.entries, c.lru)
  }

  lemma WholeMap(c: Cache)
    requires Bijective(c)
    ensures OnlyIn(c.entries, c.lru) == c.entries
  {
  }

  function Dropped(c: Cache): Cache
    requires c.lru != []
  {
    var last := c.lru[|c.lru| - 1];
    Cache(c.entries - {last.key}, c.lru[..|c.lru| - 1], c.bytes - last.bytes, c.nodes - |last.result.nodes|)
  }

  lemma OnlyInShrinks(entries: map<Key, Entry>, lru: seq<Entry>, n: nat)
    requires n <= |lru|
    ensures OnlyIn(OnlyIn(entries, lru), lru[..n]) == OnlyIn(entries, lru[..n])
  {
    assert forall x | x in lru[..n] :: x in lru;
  }

  lemma DroppedSums(c: Cache)
    requires DistinctKeys(c.lru) && c.lru != []
    ensures TotalBytes(Dropped(c).lru) == TotalBytes(c.lru) - c.lru[|c.lru| - 1].bytes
    ensures TotalNodes(Dropped(c).lru) == TotalNodes(c.lru) - |c.lru[|c.lru| - 1].result.nodes|
  {
    var n := |c.lru| - 1;
    RemoveSums(c.lru, n);
    assert c.lru[..n] + c.lru[n + 1..] == c.lru[..n];
  }

  lemma EvictOne(cfg: Config, c0: Cache, c: Cache, e: Entry)
    requires Evicting(cfg, c0, c, e) && Fits(cfg, [], e) && !Fits(cfg, c.lru, e)
    ensures c.lru != [] && Evicting(cfg, c0, Dropped(c), e)
  {
    DroppedSums(c);
    DroppedBijective(c);
    OnlyInShrinks(c0.entries, c.lru, |c.lru| - 1);
  }

  /** Removing the oldest element from list and map. */
  lemma DroppedBijective(c: Cache)
    requires Bijective(c) && c.lru != []
    ensures Dropped(c).entries == OnlyIn(c.entries, Dropped(c).lru)
    ensures Bijective(Dropped(c))
  {
    var n := |c.lru| - 1;
    forall k | k in c.entries ensures c.entries[k] in c.lru[..n] <==> k != c.lru[n].key {
      var i :| 0 <= i < |c.lru| && c.lru[i] == c.entries[k];
      assert i < n ==> c.lru[..n][i] == c.entries[k];
    }
  }
}
